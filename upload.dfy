/** The upload wizard (app/studio/upload/page.tsx): a form that checks its input,
    then creates the video record, asks for a presigned URL, PUTs the file there
    and marks the upload complete, moving from the form to an uploading screen
    and on to a processing screen, or back to the form on any failure. */
module Upload {
  import opened Wrappers
  import Text
  import Rounding

  datatype Step = Form | Uploading | Processing

  /** The chosen file: name, MIME type and size in bytes. */
  datatype FileInfo = FileInfo(name: string, mimeType: string, size: nat)

  datatype Route = Login | StudioHome

  /** The body of the create call. */
  datatype CreatePayload = CreatePayload(title: string, description: Option<string>, thumbnailUrl: Option<string>)

  /** An API call the submit makes. */
  datatype ApiCall =
    | CreateVideo(payload: CreatePayload)
    | GetPresignedUrl(fileName: string, contentType: string)
    | PutFile(uploadUrl: string, contentType: string)
    | MarkUploadComplete(videoId: string, videoUrl: string)

  /** A call's outcome: its data, or a failure with the response's `detail`, if any. */
  datatype Reply<T> = Ok(value: T) | Failed(detail: Option<string>)

  datatype Presigned = Presigned(uploadUrl: string, videoUrl: string)

  /** An `onUploadProgress` event; a `total` of 0 stands for an absent or zero total. */
  datatype ProgressEvent = ProgressEvent(loaded: nat, total: nat)

  /** What the server and the network answer to each step of one submit. */
  datatype Backend = Backend(
    create: Reply<string>,
    presign: Reply<Presigned>,
    progress: seq<ProgressEvent>,
    put: Reply<()>,
    complete: Reply<()>)

  /** `file.type.startsWith('video/')`. */
  predicate IsVideoType(mimeType: string) {
    Text.StartsWith(mimeType, "video/")
  }

  /** `s.trim() || undefined`. */
  function OptionalField(s: string): Option<string> {
    var t := Text.Trim(s);
    if t == "" then None else Some(t)
  }

  /** An optional field is left out exactly when it is all whitespace, and is
      otherwise sent trimmed. */
  lemma OptionalFieldBlank(s: string)
    ensures OptionalField(s) == None <==> Text.AllWhitespace(s)
    ensures OptionalField(s).Some? ==> OptionalField(s).value == Text.Trim(s) != ""
  {
    Text.TrimEmptyIff(s);
  }

  /** The create call's body. */
  function Payload(title: string, description: string, thumbnailUrl: string): CreatePayload {
    CreatePayload(Text.Trim(title), OptionalField(description), OptionalField(thumbnailUrl))
  }

  /** Every text the payload carries is already trimmed, and no optional field is blank. */
  lemma PayloadIsTrimmed(title: string, description: string, thumbnailUrl: string)
    ensures var p := Payload(title, description, thumbnailUrl);
      && Text.Trim(p.title) == p.title
      && (p.description.Some? ==> Text.Trim(p.description.value) == p.description.value != "")
      && (p.thumbnailUrl.Some? ==> Text.Trim(p.thumbnailUrl.value) == p.thumbnailUrl.value != "")
  {
    Text.TrimIdempotent(title);
    Text.TrimIdempotent(description);
    Text.TrimIdempotent(thumbnailUrl);
  }

  /** The percentage shown: `Math.round(loaded * 100 / (total || 1))`, nearest integer, halves up. */
  function Percent(e: ProgressEvent): (r: nat)
    ensures e.loaded <= e.total ==> r <= 100
    ensures var d := if e.total == 0 then 1 else e.total;
      2 * r * d <= 200 * e.loaded + d < 2 * r * d + 2 * d
  {
    var d := if e.total == 0 then 1 else e.total;
    assert e.loaded <= e.total ==> Rounding.RoundDiv(e.loaded * 100, d) <= 100 by {
      if e.loaded <= e.total {
        Rounding.RoundDivAtMost(e.loaded * 100, d, 100);
      }
    }
    Rounding.RoundDiv(e.loaded * 100, d)
  }

  /** With no usable total the divisor is 1, so the figure is `loaded * 100`, not a division by zero. */
  lemma PercentWithoutTotal(loaded: nat)
    ensures Percent(ProgressEvent(loaded, 0)) == 100 * loaded
  {
    Rounding.RoundDivExact(100 * loaded, 1);
  }

  /** The outcome of the checks at the top of `handleSubmit`. */
  datatype Check = NeedLogin | NeedFile | NeedTitle | Proceed

  /** The checks in their order: signed in, then a file, then a non-blank title. */
  function SubmitCheck(hasUser: bool, hasFile: bool, title: string): (c: Check)
    ensures c == NeedLogin <==> !hasUser
    ensures c == NeedFile <==> hasUser && !hasFile
    ensures c == NeedTitle <==> hasUser && hasFile && Text.Trim(title) == ""
    ensures c == Proceed <==> hasUser && hasFile && Text.Trim(title) != ""
  {
    if !hasUser then NeedLogin
    else if !hasFile then NeedFile
    else if Text.Trim(title) == "" then NeedTitle
    else Proceed
  }

  /** A title is refused exactly when it is all whitespace. */
  lemma TitleCheckIsBlankness(hasUser: bool, hasFile: bool, title: string)
    requires hasUser && hasFile
    ensures SubmitCheck(hasUser, hasFile, title) == NeedTitle <==> Text.AllWhitespace(title)
  {
    Text.TrimEmptyIff(title);
  }

  /** `err.response?.data?.detail || 'Failed to upload video'`. */
  function ErrorMessage(detail: Option<string>): (m: string)
    ensures m != ""
    ensures detail.Some? && detail.value != "" ==> m == detail.value
    ensures !(detail.Some? && detail.value != "") ==> m == "Failed to upload video"
  {
    if detail.Some? && detail.value != "" then detail.value else "Failed to upload video"
  }

  /** The calls one submit makes: each is made only once the previous one succeeded. */
  function CallLog(file: FileInfo, payload: CreatePayload, b: Backend): seq<ApiCall> {
    [CreateVideo(payload)] +
    match b.create
    case Failed(_) => []
    case Ok(videoId) =>
      [GetPresignedUrl(file.name, file.mimeType)] +
      match b.presign
      case Failed(_) => []
      case Ok(p) =>
        [PutFile(p.uploadUrl, file.mimeType)] +
        match b.put
        case Failed(_) => []
        case Ok(_) => [MarkUploadComplete(videoId, p.videoUrl)]
  }

  /** The detail of the first failing call, or None when all four succeed. */
  function FirstFailure(b: Backend): Option<Option<string>> {
    if b.create.Failed? then Some(b.create.detail)
    else if b.presign.Failed? then Some(b.presign.detail)
    else if b.put.Failed? then Some(b.put.detail)
    else if b.complete.Failed? then Some(b.complete.detail)
    else None
  }

  /** Position of a call in the create, presign, PUT, mark-complete order. */
  function Stage(c: ApiCall): nat {
    match c
    case CreateVideo(_) => 0
    case GetPresignedUrl(_, _) => 1
    case PutFile(_, _) => 2
    case MarkUploadComplete(_, _) => 3
  }

  /** How many of create, presign and PUT succeed before the first failure. */
  function LeadingSuccesses(b: Backend): nat {
    if b.create.Failed? then 0
    else if b.presign.Failed? then 1
    else if b.put.Failed? then 2
    else 3
  }

  /** The calls run in their fixed order, and a failure skips every later call:
      the log stops right after the first failing call. */
  lemma CallsInOrder(file: FileInfo, payload: CreatePayload, b: Backend)
    ensures var log := CallLog(file, payload, b);
      && |log| == 1 + LeadingSuccesses(b)
      && (forall i :: 0 <= i < |log| ==> Stage(log[i]) == i)
      && log[0] == CreateVideo(payload)
      && (|log| > 1 ==> log[1] == GetPresignedUrl(file.name, file.mimeType))
      && (FirstFailure(b).None? ==> |log| == 4)
  {
  }

  /** The progress shown after a submit: the last event's figure when the PUT was
      issued and reported progress, the earlier figure otherwise. */
  function ProgressAfter(previous: nat, b: Backend): nat {
    if b.create.Ok? && b.presign.Ok? && |b.progress| > 0 then Percent(b.progress[|b.progress| - 1])
    else previous
  }

  class UploadPage {
    var title: string
    var description: string
    var thumbnailUrl: string
    var videoFile: Option<FileInfo>
    var uploading: bool
    var uploadProgress: nat
    var error: string
    var currentStep: Step

    constructor ()
      ensures title == "" && description == "" && thumbnailUrl == "" && videoFile == None
      ensures !uploading && uploadProgress == 0 && error == "" && currentStep == Form
    {
      title, description, thumbnailUrl := "", "", "";
      videoFile := None;
      uploading := false;
      uploadProgress := 0;
      error := "";
      currentStep := Form;
    }

    /** The text inputs' `onChange` handlers. */
    method EditFields(newTitle: string, newDescription: string, newThumbnailUrl: string)
      requires currentStep == Form
      modifies this`title, this`description, this`thumbnailUrl
      ensures title == newTitle && description == newDescription && thumbnailUrl == newThumbnailUrl
    {
      title, description, thumbnailUrl := newTitle, newDescription, newThumbnailUrl;
    }

    /** `handleFileChange`: `file` is the first chosen file, if any. */
    method HandleFileChange(file: Option<FileInfo>)
      requires currentStep == Form
      modifies this`videoFile, this`error
      ensures file.None? ==> videoFile == old(videoFile) && error == old(error)
      ensures file.Some? && !IsVideoType(file.value.mimeType) ==>
        videoFile == old(videoFile) && error == "Please select a video file"
      ensures file.Some? && IsVideoType(file.value.mimeType) ==> videoFile == file && error == ""
    {
      if file.Some? {
        if !IsVideoType(file.value.mimeType) {
          error := "Please select a video file";
          return;
        }
        videoFile := file;
        error := "";
      }
    }

    /** `onUploadProgress`. */
    method OnUploadProgress(e: ProgressEvent)
      requires uploading && currentStep == Uploading
      modifies this`uploadProgress
      ensures uploadProgress == Percent(e)
    {
      uploadProgress := Rounding.RoundDiv(e.loaded * 100, if e.total == 0 then 1 else e.total);
    }

    /** The progress callback over a run of events. */
    method ApplyProgress(events: seq<ProgressEvent>)
      requires uploading && currentStep == Uploading
      modifies this`uploadProgress
      ensures uploadProgress == if events == [] then old(uploadProgress) else Percent(events[|events| - 1])
    {
      var i := 0;
      while i < |events|
        invariant 0 <= i <= |events|
        invariant uploadProgress == if i == 0 then old(uploadProgress) else Percent(events[i - 1])
      {
        OnUploadProgress(events[i]);
        i := i + 1;
      }
    }

    /** The `try` block of `handleSubmit`: the four awaited calls, each made only
        when the one before succeeded, while the page shows the uploading screen.
        Returns the calls made and the first failure. */
    method RunCalls(file: FileInfo, payload: CreatePayload, b: Backend) returns (calls: seq<ApiCall>, failure: Option<Option<string>>)
      requires uploading && currentStep == Uploading && error == ""
      modifies this`uploadProgress
      ensures calls == CallLog(file, payload, b)
      ensures failure == FirstFailure(b)
      ensures uploadProgress == ProgressAfter(old(uploadProgress), b)
    {
      calls := [CreateVideo(payload)];
      match b.create {
        case Failed(d) =>
          return calls, Some(d);
        case Ok(videoId) =>
          calls := calls + [GetPresignedUrl(file.name, file.mimeType)];
          match b.presign {
            case Failed(d) =>
              return calls, Some(d);
            case Ok(p) =>
              calls := calls + [PutFile(p.uploadUrl, file.mimeType)];
              ApplyProgress(b.progress);
              match b.put {
                case Failed(d) =>
                  return calls, Some(d);
                case Ok(_) =>
                  calls := calls + [MarkUploadComplete(videoId, p.videoUrl)];
                  failure := if b.complete.Failed? then Some(b.complete.detail) else None;
              }
          }
      }
    }

    /** The part of `handleSubmit` after the checks: the uploading screen, the
        calls, then the processing screen or the form again with an error. */
    method StartUpload(file: FileInfo, payload: CreatePayload, b: Backend) returns (calls: seq<ApiCall>, navigate: Option<Route>)
      modifies this`uploading, this`error, this`currentStep, this`uploadProgress
      ensures !uploading
      ensures calls == CallLog(file, payload, b)
      ensures uploadProgress == ProgressAfter(old(uploadProgress), b)
      ensures FirstFailure(b).None? ==> currentStep == Processing && error == "" && navigate == Some(StudioHome)
      ensures FirstFailure(b).Some? ==> currentStep == Form && error == ErrorMessage(FirstFailure(b).value) && navigate == None
    {
      uploading := true;
      error := "";
      currentStep := Uploading;
      navigate := None;

      var failure;
      calls, failure := RunCalls(file, payload, b);
      if failure.Some? {
        error := ErrorMessage(failure.value);
        currentStep := Form;
      } else {
        currentStep := Processing;
        navigate := Some(StudioHome);
      }
      uploading := false;
    }

    /** `handleSubmit`, run to completion against the given answers. It returns the
        calls made and where the page navigates (to the studio after the success
        screen's delay). */
    method HandleSubmit(hasUser: bool, b: Backend) returns (calls: seq<ApiCall>, navigate: Option<Route>)
      requires currentStep == Form && !uploading
      modifies this`uploading, this`error, this`currentStep, this`uploadProgress
      ensures !uploading
      ensures old(SubmitCheck(hasUser, videoFile.Some?, title)) == NeedLogin ==>
        navigate == Some(Login) && calls == [] && error == old(error)
      ensures old(SubmitCheck(hasUser, videoFile.Some?, title)) == NeedFile ==>
        navigate == None && calls == [] && error == "Please select a video file"
      ensures old(SubmitCheck(hasUser, videoFile.Some?, title)) == NeedTitle ==>
        navigate == None && calls == [] && error == "Please enter a title"
      ensures old(SubmitCheck(hasUser, videoFile.Some?, title)) != Proceed ==>
        currentStep == Form && uploadProgress == old(uploadProgress)
      ensures old(SubmitCheck(hasUser, videoFile.Some?, title)) == Proceed ==>
        && calls == old(CallLog(videoFile.value, Payload(title, description, thumbnailUrl), b))
        && uploadProgress == ProgressAfter(old(uploadProgress), b)
      ensures old(SubmitCheck(hasUser, videoFile.Some?, title)) == Proceed && FirstFailure(b).None? ==>
        currentStep == Processing && error == "" && navigate == Some(StudioHome)
      ensures old(SubmitCheck(hasUser, videoFile.Some?, title)) == Proceed && FirstFailure(b).Some? ==>
        currentStep == Form && error == ErrorMessage(FirstFailure(b).value) && navigate == None
    {
      calls, navigate := [], None;
      var check := SubmitCheck(hasUser, videoFile.Some?, title);
      if check == NeedLogin {
        navigate := Some(Login);
        return;
      }
      if check == NeedFile {
        error := "Please select a video file";
        return;
      }
      if check == NeedTitle {
        error := "Please enter a title";
        return;
      }

      calls, navigate := StartUpload(videoFile.value, Payload(title, description, thumbnailUrl), b);
    }
  }
}
