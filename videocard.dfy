/** The relative upload date on a video card (components/VideoCard.tsx). */
module VideoCard {
  import Text
  import Rounding

  /** `formatDate`'s answer. */
  datatype DateLabel =
    | Today
    | Yesterday
    | DaysAgo(days: nat)
    | WeeksAgo(weeks: nat)
    | MonthsAgo(months: nat)
    | YearsAgo(years: nat)

  /** `1000 * 60 * 60 * 24`. */
  const MsPerDay: nat := 86400000

  /** `formatDate` from the whole number of days between upload and now: each
      count says which span of days it stands for. */
  function FormatDate(diffDays: nat): (r: DateLabel)
    ensures r == Today <==> diffDays == 0
    ensures r == Yesterday <==> diffDays == 1
    ensures r.DaysAgo? <==> 2 <= diffDays < 7
    ensures r.DaysAgo? ==> r.days == diffDays
    ensures r.WeeksAgo? <==> 7 <= diffDays < 30
    ensures r.WeeksAgo? ==> 1 <= r.weeks <= 4 && 7 * r.weeks <= diffDays < 7 * r.weeks + 7
    ensures r.MonthsAgo? <==> 30 <= diffDays < 365
    ensures r.MonthsAgo? ==> 1 <= r.months <= 12 && 30 * r.months <= diffDays < 30 * r.months + 30
    ensures r.YearsAgo? <==> diffDays >= 365
    ensures r.YearsAgo? ==> 1 <= r.years && 365 * r.years <= diffDays < 365 * r.years + 365
  {
    if diffDays == 0 then Today
    else if diffDays == 1 then Yesterday
    else if diffDays < 7 then DaysAgo(diffDays)
    else if diffDays < 30 then WeeksAgo(diffDays / 7)
    else if diffDays < 365 then MonthsAgo(diffDays / 30)
    else YearsAgo(diffDays / 365)
  }

  /** The label as displayed. A counted label is its count in decimal followed by
      its words, so the number in front reads back as the count. */
  function LabelText(l: DateLabel): (r: string)
    ensures l.Today? ==> r == "Today"
    ensures l.Yesterday? ==> r == "Yesterday"
    ensures !l.Today? && !l.Yesterday? ==>
      && |Suffix(l)| < |r| && r[|r| - |Suffix(l)|..] == Suffix(l)
      && Text.AllDigits(r[..|r| - |Suffix(l)|])
      && Text.ParseNat(r[..|r| - |Suffix(l)|]) == Count(l)
  {
    match l
    case Today => "Today"
    case Yesterday => "Yesterday"
    case _ =>
      var digits := Text.NatToString(Count(l));
      Text.ParseNatToString(Count(l));
      assert (digits + Suffix(l))[..|digits|] == digits;
      assert (digits + Suffix(l))[|digits|..] == Suffix(l);
      digits + Suffix(l)
  }

  /** The words after the number in a counted label; the two named labels have none. */
  function Suffix(l: DateLabel): string {
    match l
    case Today => ""
    case Yesterday => ""
    case DaysAgo(_) => " days ago"
    case WeeksAgo(_) => " weeks ago"
    case MonthsAgo(_) => " months ago"
    case YearsAgo(_) => " years ago"
  }

  /** Which bucket a label is in, the more recent first. */
  function Bucket(l: DateLabel): nat {
    match l
    case Today => 0
    case Yesterday => 1
    case DaysAgo(_) => 2
    case WeeksAgo(_) => 3
    case MonthsAgo(_) => 4
    case YearsAgo(_) => 5
  }

  function Count(l: DateLabel): nat {
    match l
    case Today => 0
    case Yesterday => 1
    case DaysAgo(n) => n
    case WeeksAgo(n) => n
    case MonthsAgo(n) => n
    case YearsAgo(n) => n
  }

  /** `a` looks no older than `b`. */
  predicate NoOlder(a: DateLabel, b: DateLabel) {
    Bucket(a) < Bucket(b) || (Bucket(a) == Bucket(b) && Count(a) <= Count(b))
  }

  lemma DivMonotone(a: nat, b: nat, d: nat)
    requires a <= b && d > 0
    ensures a / d <= b / d
  {
    Rounding.MulMonotone(b / d + 1, a / d, d);
  }

  /** An older upload never shows a more recent label. */
  lemma FormatDateMonotone(a: nat, b: nat)
    requires a <= b
    ensures NoOlder(FormatDate(a), FormatDate(b))
  {
    DivMonotone(a, b, 7);
    DivMonotone(a, b, 30);
    DivMonotone(a, b, 365);
  }

  function Abs(x: int): nat {
    if x < 0 then -x else x
  }

  /** `diffDays` as written: `Math.ceil(Math.abs(now - date) / MsPerDay)`. */
  function DiffDaysAsWritten(nowMs: int, createdMs: int): nat {
    Rounding.CeilDiv(Abs(nowMs - createdMs), MsPerDay)
  }

  /** As written, "Today" needs the upload to be at the very millisecond of `now`;
      anything else up to a day away reads "Yesterday". */
  lemma {:induction false} AsWrittenTodayOnlyAtSameInstant(nowMs: int, createdMs: int)
    ensures FormatDate(DiffDaysAsWritten(nowMs, createdMs)) == Today <==> nowMs == createdMs
    ensures 0 < Abs(nowMs - createdMs) <= MsPerDay ==> FormatDate(DiffDaysAsWritten(nowMs, createdMs)) == Yesterday
  {
  }

  /** The counterexample: a video uploaded one minute ago is labelled "Yesterday". */
  lemma AsWrittenOneMinuteOldIsYesterday()
    ensures FormatDate(DiffDaysAsWritten(60000, 0)) == Yesterday
  {
    AsWrittenTodayOnlyAtSameInstant(60000, 0);
  }

  /** The whole days between upload and now, rounded down. */
  function DiffDays(nowMs: int, createdMs: int): nat {
    Abs(nowMs - createdMs) / MsPerDay
  }

  /** "Today" covers the first 24 hours and "Yesterday" the next 24. */
  lemma {:induction false} TodayIffWithinADay(nowMs: int, createdMs: int)
    ensures FormatDate(DiffDays(nowMs, createdMs)) == Today <==> Abs(nowMs - createdMs) < MsPerDay
    ensures FormatDate(DiffDays(nowMs, createdMs)) == Yesterday <==> MsPerDay <= Abs(nowMs - createdMs) < 2 * MsPerDay
  {
    var t := Abs(nowMs - createdMs);
    var d := t / MsPerDay;
    assert t == d * MsPerDay + t % MsPerDay;
    Rounding.MulMonotone(2, d, MsPerDay);
  }

  /** Past and future dates at the same distance get the same label. */
  lemma LabelSymmetric(nowMs: int, createdMs: int)
    ensures FormatDate(DiffDays(nowMs, createdMs)) == FormatDate(DiffDays(createdMs, nowMs))
    ensures FormatDate(DiffDaysAsWritten(nowMs, createdMs)) == FormatDate(DiffDaysAsWritten(createdMs, nowMs))
  {
    assert Abs(nowMs - createdMs) == Abs(createdMs - nowMs);
  }

  /** The label a card shows for a video created at `createdMs`, seen at `nowMs`,
      with the day count rounded up as written. */
  function CardDateText(nowMs: int, createdMs: int): string {
    LabelText(FormatDate(DiffDaysAsWritten(nowMs, createdMs)))
  }

  /** The same label with the day count rounded down. */
  function CorrectedCardDateText(nowMs: int, createdMs: int): string {
    LabelText(FormatDate(DiffDays(nowMs, createdMs)))
  }

  /** One minute after upload the card as written reads "Yesterday"; rounded down it reads "Today". */
  lemma CardOneMinuteOld()
    ensures CardDateText(60000, 0) == "Yesterday"
    ensures CorrectedCardDateText(60000, 0) == "Today"
  {
    AsWrittenOneMinuteOldIsYesterday();
    TodayIffWithinADay(60000, 0);
  }
}
