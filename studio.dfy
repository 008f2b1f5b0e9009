/** The creator's studio list (app/studio/page.tsx): loading the creator's videos,
    deleting one, and the status badge of each row. */
module Studio {
  import opened Wrappers
  import opened Videos
  import SeqFilter

  /** A status badge: its colour classes and its text. */
  datatype Badge = Badge(color: string, text: string)

  const PendingBadge := Badge("bg-yellow-100 text-yellow-800", "Pending")
  const ProcessingBadge := Badge("bg-blue-100 text-blue-800", "Processing")
  const PublishedBadge := Badge("bg-green-100 text-green-800", "Published")
  const FailedBadge := Badge("bg-red-100 text-red-800", "Failed")

  /** The statuses the badge table lists. */
  predicate KnownStatus(status: string) {
    status in {"pending", "processing", "completed", "failed"}
  }

  /** `getStatusBadge`: the table entry for a known status, the pending entry for any other. */
  function StatusBadge(status: string): (b: Badge)
    ensures status == "pending" ==> b.text == "Pending"
    ensures status == "processing" ==> b.text == "Processing"
    ensures status == "completed" ==> b.text == "Published"
    ensures status == "failed" ==> b.text == "Failed"
    ensures status == "pending" || !KnownStatus(status) <==> b == PendingBadge
  {
    if status == "processing" then ProcessingBadge
    else if status == "completed" then PublishedBadge
    else if status == "failed" then FailedBadge
    else PendingBadge
  }

  /** The known statuses get four different badges, so a badge names its status;
      every unknown status shares the pending one. */
  lemma BadgeIdentifiesStatus(s: string, t: string)
    requires KnownStatus(s) && KnownStatus(t) && s != t
    ensures StatusBadge(s) != StatusBadge(t)
    ensures StatusBadge(s).text != StatusBadge(t).text
  {
  }

  /** The list after a successful delete: `videos.filter(v => v.id !== id)`. */
  function RemoveById(videos: seq<Video>, id: string): (r: seq<Video>)
    ensures |r| <= |videos|
    ensures forall v :: v in r <==> v in videos && v.id != id
  {
    SeqFilter.Filter(videos, (v: Video) => v.id != id)
  }

  /** Deleting keeps the other videos in their order: it distributes over concatenation. */
  lemma RemoveByIdKeepsOrder(a: seq<Video>, b: seq<Video>, id: string)
    ensures RemoveById(a + b, id) == RemoveById(a, id) + RemoveById(b, id)
  {
    SeqFilter.FilterAppend(a, b, (v: Video) => v.id != id);
  }

  /** Deleting an id absent from the list leaves the list as it is. */
  lemma RemoveByIdAbsent(videos: seq<Video>, id: string)
    requires forall i :: 0 <= i < |videos| ==> videos[i].id != id
    ensures RemoveById(videos, id) == videos
  {
    SeqFilter.FilterAllPass(videos, (v: Video) => v.id != id);
  }

  /** Deleting the same id twice is deleting it once. */
  lemma RemoveByIdIdempotent(videos: seq<Video>, id: string)
    ensures RemoveById(RemoveById(videos, id), id) == RemoveById(videos, id)
  {
    SeqFilter.FilterIdempotent(videos, (v: Video) => v.id != id);
  }

  /** What the auth effect does. */
  datatype AuthAction = RedirectToLogin | FetchVideos | Wait

  /** Signed out once auth has loaded: go to /login; signed in: load the videos. */
  function AuthEffect(authLoading: bool, hasUser: bool): (a: AuthAction)
    ensures a == RedirectToLogin <==> !authLoading && !hasUser
    ensures a == FetchVideos <==> hasUser
  {
    if !authLoading && !hasUser then RedirectToLogin
    else if hasUser then FetchVideos
    else Wait
  }

  class StudioPage {
    var videos: seq<Video>
    var loading: bool
    var error: string

    constructor ()
      ensures videos == [] && loading && error == ""
    {
      videos := [];
      loading := true;
      error := "";
    }

    /** `fetchMyVideos`: the response is the API's list, or None when the request failed.
        A success does not clear an earlier error. */
    method FetchMyVideos(response: Option<seq<Video>>)
      modifies this
      ensures !loading
      ensures response.Some? ==> videos == response.value && error == old(error)
      ensures response.None? ==> videos == old(videos) && error == "Failed to load videos"
    {
      if response.Some? {
        videos := response.value;
      } else {
        error := "Failed to load videos";
      }
      loading := false;
    }

    /** `handleDelete`: `confirmed` is the answer to the confirm dialog and
        `deleteSucceeds` the outcome of the API call, if one is made. */
    method HandleDelete(id: string, confirmed: bool, deleteSucceeds: bool) returns (apiCalled: bool, alerted: bool)
      modifies this`videos
      ensures apiCalled == confirmed
      ensures alerted == (confirmed && !deleteSucceeds)
      ensures videos == if confirmed && deleteSucceeds then RemoveById(old(videos), id) else old(videos)
    {
      apiCalled, alerted := false, false;
      if !confirmed {
        return;
      }
      apiCalled := true;
      if deleteSucceeds {
        videos := RemoveById(videos, id);
      } else {
        alerted := true;
      }
    }
  }
}
