/** `formatViews`, written the same way in components/ShortsPlayer.tsx and
    components/VideoCard.tsx: millions with an "M", thousands with a "K",
    smaller counts as plain decimal text. */
module ViewCount {
  import Text

  /** The label's form. The one-decimal figure `toFixed(1)` prints before the
      suffix is not modelled; a plain count carries its exact text. */
  datatype ViewsLabel = Millions | Thousands | Plain(text: string)

  function FormatViews(views: nat): (r: ViewsLabel)
    ensures r == Millions <==> views >= 1000000
    ensures r == Thousands <==> 1000 <= views < 1000000
    ensures r.Plain? <==> views < 1000
    ensures r.Plain? ==> Text.AllDigits(r.text) && Text.ParseNat(r.text) == views
  {
    if views >= 1000000 then Millions
    else if views >= 1000 then Thousands
    else Text.ParseNatToString(views); Plain(Text.NatToString(views))
  }

  /** How large a label's unit is: plain < K < M. */
  function Magnitude(l: ViewsLabel): nat {
    match l
    case Plain(_) => 0
    case Thousands => 1
    case Millions => 2
  }

  /** More views never get a smaller unit. */
  lemma FormatViewsMonotone(a: nat, b: nat)
    requires a <= b
    ensures Magnitude(FormatViews(a)) <= Magnitude(FormatViews(b))
  {
  }
}
