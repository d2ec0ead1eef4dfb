/**
 * The create-project dialog: its three pieces of state (`error`,
 * `selectedFile`, `loading`), the submit handler's validation and
 * error mapping, the file picker's handler, and the per-field error lookup.
 * The service call itself is a parameter: the outcome it would have.
 */
module CreateProjectModal {
  import opened Wrappers

  /** A picked file: its name and its MIME type (`File.type`). */
  datatype MediaFile = MediaFile(name: string, mimeType: string)

  /** A form error; a `None` field means the error belongs to no input. */
  datatype FormError = FormError(field: Option<string>, message: string)

  /** `error.response.data` of a failed request. */
  datatype ResponseData = ResponseData(detail: Option<string>)

  /** How the project-creation request ends. */
  datatype ApiOutcome =
    | Created
    | FailedWithResponse(data: Option<ResponseData>)
    | FailedWithoutResponse

  /** The form data handed to the service: the trimmed name and the file. */
  datatype CreateRequest = CreateRequest(name: string, video: MediaFile)

  /** The dialog's callbacks, in the order they are invoked. */
  datatype Callback = OnSuccess | OnClose

  const NameField: string := "name"
  const VideoField: string := "video"
  const VideoTypePrefix: string := "video/"
  const CreateFailedMessage: string := "Failed to create project"
  const UnexpectedMessage: string := "An unexpected error occurred. Please try again."
  const NameRequired: FormError := FormError(Some(NameField), "Please enter a project name")
  const VideoRequired: FormError := FormError(Some(VideoField), "Please select a video file")
  const VideoInvalid: FormError := FormError(Some(VideoField), "Please select a valid video file")

  // ---------------------------------------------------------------------
  // String.prototype.trim and startsWith
  // ---------------------------------------------------------------------

  /** The characters `String.prototype.trim` removes: ECMAScript white space
      (tab, vertical tab, form feed, no-break space, byte order mark and the
      Unicode space separators) and line terminators. */
  predicate IsWhitespace(c: char)
  {
    || c == '\t' || c == '\n' || c == '\U{000B}' || c == '\U{000C}' || c == '\r'
    || c == ' ' || c == '\U{00A0}' || c == '\U{1680}' || ('\U{2000}' <= c <= '\U{200A}')
    || c == '\U{2028}' || c == '\U{2029}' || c == '\U{202F}' || c == '\U{205F}'
    || c == '\U{3000}' || c == '\U{FEFF}'
  }

  /** `s` without its leading white space. */
  function TrimStart(s: string): (r: string)
    ensures |r| <= |s| && r == s[|s| - |r|..]
    ensures forall k :: 0 <= k < |s| - |r| ==> IsWhitespace(s[k])
    ensures r != "" ==> !IsWhitespace(r[0])
  {
    if s != "" && IsWhitespace(s[0]) then TrimStart(s[1..]) else s
  }

  /** `s` without its trailing white space. */
  function TrimEnd(s: string): (r: string)
    ensures |r| <= |s| && r == s[..|r|]
    ensures forall k :: |r| <= k < |s| ==> IsWhitespace(s[k])
    ensures r != "" ==> !IsWhitespace(r[|r| - 1])
  {
    if s != "" && IsWhitespace(s[|s| - 1]) then TrimEnd(s[..|s| - 1]) else s
  }

  /** `String.prototype.trim`: the part of `s` left between a white-space
      prefix and a white-space suffix; empty exactly when `s` is all white
      space, otherwise neither end of the result is white space. */
  function Trim(s: string): (r: string)
    ensures |r| <= |s|
    // what is left starts where the leading white space ends
    ensures TrimmedAt(s, r, |s| - |TrimStart(s)|)
    ensures r == "" <==> forall k :: 0 <= k < |s| ==> IsWhitespace(s[k])
    ensures r != "" ==> !IsWhitespace(r[0]) && !IsWhitespace(r[|r| - 1])
  {
    InfixAt(s, TrimStart(s), TrimEnd(TrimStart(s)), |s| - |TrimStart(s)|);
    TrimEnd(TrimStart(s))
  }

  /** Every character of `s` is white space. */
  predicate AllWhitespace(s: string)
  {
    s == [] || (IsWhitespace(s[0]) && AllWhitespace(s[1..]))
  }

  /** `r` is the part of `s` at offset `i`, with only white space before and after it. */
  predicate TrimmedAt(s: string, r: string, i: int)
  {
    0 <= i <= |s| - |r| && r == s[i..i + |r|] && AllWhitespace(s[..i]) && AllWhitespace(s[i + |r|..])
  }

  /** A string whose every character is white space is `AllWhitespace`. */
  lemma {:induction false} WhitespaceRun(s: string)
    requires forall k :: 0 <= k < |s| ==> IsWhitespace(s[k])
    ensures AllWhitespace(s)
  {
    if s != [] {
      WhitespaceRun(s[1..]);
    }
  }

  /** A prefix `r` of the suffix `t` of `s` that starts at `i`, with white space
      before `i` and after `r` in `t`, is trimmed from `s` at `i`. */
  lemma InfixAt(s: string, t: string, r: string, i: int)
    requires 0 <= i <= |s| && t == s[i..] && |r| <= |t| && r == t[..|r|]
    requires forall k :: 0 <= k < i ==> IsWhitespace(s[k])
    requires forall k :: |r| <= k < |t| ==> IsWhitespace(t[k])
    ensures TrimmedAt(s, r, i)
  {
    assert r == s[i..i + |r|];
    WhitespaceRun(s[..i]);
    assert s[i + |r|..] == t[|r|..];
    WhitespaceRun(t[|r|..]);
  }

  /** `type.startsWith('video/')`. */
  predicate IsVideoType(mimeType: string)
  {
    HasPrefix(mimeType, VideoTypePrefix)
  }

  // ---------------------------------------------------------------------
  // What the handlers decide
  // ---------------------------------------------------------------------

  /** Everything one submit decides: the error left in state, the request
      handed to the service (if any) and the callbacks invoked. */
  datatype Submission = Submission(error: Option<FormError>, request: Option<CreateRequest>, callbacks: seq<Callback>)

  /** What the submit handler does for the typed name, the selected file and
      the outcome the service call would have. */
  function SubmitResult(rawName: string, file: Option<MediaFile>, outcome: ApiOutcome): (r: Submission)
    // the service is called exactly when all three checks pass, with the trimmed name
    ensures r.request.Some? <==> Trim(rawName) != "" && file.Some? && IsVideoType(file.value.mimeType)
    ensures r.request.Some? ==> r.request.value == CreateRequest(Trim(rawName), file.value)
    // the name is checked first, whatever the file
    ensures Trim(rawName) == "" ==> r.error == Some(NameRequired)
    ensures Trim(rawName) != "" && file.None? ==> r.error == Some(VideoRequired)
    ensures Trim(rawName) != "" && file.Some? && !IsVideoType(file.value.mimeType) ==> r.error == Some(VideoInvalid)
    // validation errors are field-scoped, service errors are not
    ensures r.error.Some? ==> (r.error.value.field.Some? <==> r.request.None?)
    // success: no error, `onSuccess` then `onClose`; any other exit: an error and no callback
    ensures r.callbacks == (if r.request.Some? && outcome.Created? then [OnSuccess, OnClose] else [])
    ensures r.error.None? <==> r.callbacks != []
    // how a failed request is reported
    ensures r.request.Some? && outcome.FailedWithoutResponse? ==> r.error == Some(FormError(None, CreateFailedMessage))
    ensures r.request.Some? && outcome.FailedWithResponse? && outcome.data.Some? ==>
      r.error == Some(FormError(None, if Truthy(outcome.data.value.detail) then outcome.data.value.detail.value
                                      else CreateFailedMessage))
    ensures r.request.Some? && outcome == FailedWithResponse(None) ==> r.error == Some(FormError(None, UnexpectedMessage))
  {
    var name := Trim(rawName);
    if name == "" then Submission(Some(NameRequired), None, [])
    else if file.None? then Submission(Some(VideoRequired), None, [])
    else if !IsVideoType(file.value.mimeType) then Submission(Some(VideoInvalid), None, [])
    else
      var request := Some(CreateRequest(name, file.value));
      match outcome
      case Created => Submission(None, request, [OnSuccess, OnClose])
      case FailedWithoutResponse => Submission(Some(FormError(None, CreateFailedMessage)), request, [])
      case FailedWithResponse(None) => Submission(Some(FormError(None, UnexpectedMessage)), request, [])
      case FailedWithResponse(Some(data)) =>
        var message := if Truthy(data.detail) then data.detail.value else CreateFailedMessage;
        Submission(Some(FormError(None, message)), request, [])
  }

  /** What the file picker's handler leaves in state. */
  datatype FileSelection = FileSelection(selected: Option<MediaFile>, error: Option<FormError>)

  function FileChangeResult(file: Option<MediaFile>): (r: FileSelection)
    // a file is kept exactly when it is a video, and then no error is set
    ensures r.selected.Some? <==> file.Some? && IsVideoType(file.value.mimeType)
    ensures r.selected.Some? ==> r.selected == file
    ensures r.error.None? <==> r.selected.Some?
    ensures file.None? ==> r.error == Some(VideoRequired)
    ensures file.Some? && !IsVideoType(file.value.mimeType) ==> r.error == Some(VideoInvalid)
  {
    if file.None? then FileSelection(None, Some(VideoRequired))
    else if !IsVideoType(file.value.mimeType) then FileSelection(None, Some(VideoInvalid))
    else FileSelection(file, None)
  }

  /** `getFieldError(field)`: the error's message when the error belongs to
      `field`, otherwise the empty string. */
  function GetFieldError(error: Option<FormError>, field: string): (message: string)
    ensures message != "" ==> error.Some? && error.value.field == Some(field)
    ensures error.Some? && error.value.field == Some(field) ==> message == error.value.message
  {
    if error.Some? && error.value.field == Some(field) then error.value.message else ""
  }

  /** The general banner above the inputs: shown for an error with a falsy field. */
  function BannerMessage(error: Option<FormError>): (message: string)
    ensures message != "" ==> error.Some? && !Truthy(error.value.field)
    ensures error.Some? && !Truthy(error.value.field) ==> message == error.value.message
  {
    if error.Some? && !Truthy(error.value.field) then error.value.message else ""
  }

  // ---------------------------------------------------------------------
  // The dialog's state and its handlers
  // ---------------------------------------------------------------------

  class Form {
    var loading: bool
    var error: Option<FormError>
    var selectedFile: Option<MediaFile>

    /** The picker only ever keeps a video file. */
    ghost predicate Valid()
      reads this`selectedFile
    {
      selectedFile.Some? ==> IsVideoType(selectedFile.value.mimeType)
    }

    constructor ()
      ensures Valid()
      ensures !loading && error.None? && selectedFile.None?
    {
      loading := false;
      error := None;
      selectedFile := None;
    }

    /** `handleSubmit`: clears the error and sets `loading`, runs the checks
        and the request, and clears `loading` on every way out. */
    method HandleSubmit(rawName: string, outcome: ApiOutcome) returns (request: Option<CreateRequest>, callbacks: seq<Callback>)
      requires Valid()
      modifies this`error, this`loading
      ensures Valid()
      ensures Submission(error, request, callbacks) == SubmitResult(rawName, selectedFile, outcome)
      ensures !loading
    {
      error := None;
      loading := true;
      request, callbacks := SubmitSteps(rawName, outcome);
      ghost var submitted := Submission(error, request, callbacks);
      loading := false;
      assert Submission(error, request, callbacks) == submitted;
    }

    /** The `try` block of `handleSubmit`, with its early returns and both
        `catch` handlers. */
    method SubmitSteps(rawName: string, outcome: ApiOutcome) returns (request: Option<CreateRequest>, callbacks: seq<Callback>)
      requires error.None?
      modifies this`error
      ensures Submission(error, request, callbacks) == SubmitResult(rawName, selectedFile, outcome)
    {
      request, callbacks := None, [];
      var name := Trim(rawName);
      if name == "" {
        error := Some(NameRequired);
        return;
      }
      if selectedFile.None? {
        error := Some(VideoRequired);
        return;
      }
      if !IsVideoType(selectedFile.value.mimeType) {
        error := Some(VideoInvalid);
        return;
      }
      request := Some(CreateRequest(name, selectedFile.value));
      match outcome {
        case Created =>
          callbacks := [OnSuccess, OnClose];
        case FailedWithoutResponse =>
          error := Some(FormError(None, CreateFailedMessage));
        case FailedWithResponse(data) =>
          if data.None? {
            // reading `detail` of a missing body throws inside the inner
            // `catch`; the outer handler reports it as unexpected
            error := Some(FormError(None, UnexpectedMessage));
          } else if data.value.detail.Some? && data.value.detail.value != "" {
            error := Some(FormError(None, data.value.detail.value));
          } else {
            error := Some(FormError(None, CreateFailedMessage));
          }
      }
    }

    /** `handleFileChange`: clears the error, then keeps a video file or
        drops the selection and reports why. */
    method HandleFileChange(file: Option<MediaFile>)
      modifies this`error, this`selectedFile
      ensures Valid()
      ensures FileSelection(selectedFile, error) == FileChangeResult(file)
    {
      error := None;
      if file.None? {
        selectedFile := None;
        error := Some(VideoRequired);
        return;
      }
      if !IsVideoType(file.value.mimeType) {
        selectedFile := None;
        error := Some(VideoInvalid);
        return;
      }
      selectedFile := file;
    }
  }

  // ---------------------------------------------------------------------
  // Properties relating the handlers and the lookups
  // ---------------------------------------------------------------------

  /** A name of white space only is reported as missing, before any file check. */
  lemma BlankNameRejected(rawName: string, file: Option<MediaFile>, outcome: ApiOutcome)
    requires forall k :: 0 <= k < |rawName| ==> IsWhitespace(rawName[k])
    ensures SubmitResult(rawName, file, outcome) == Submission(Some(NameRequired), None, [])
  {
  }

  /** Every error a submit leaves is shown in exactly one place: under the
      name input, under the video input, or in the general banner; and the
      banner shows only failures of the request itself. */
  lemma SubmitErrorShownOnce(rawName: string, file: Option<MediaFile>, outcome: ApiOutcome)
    ensures var r := SubmitResult(rawName, file, outcome);
      && (GetFieldError(r.error, NameField) != "" <==> Trim(rawName) == "")
      && (GetFieldError(r.error, VideoField) != "" <==>
            Trim(rawName) != "" && (file.None? || !IsVideoType(file.value.mimeType)))
      && (BannerMessage(r.error) != "" <==> r.request.Some? && !outcome.Created?)
      && (r.error.Some? ==> r.error.value.message != "")
  {
    NameErrorShown(rawName, file, outcome);
    VideoErrorShown(rawName, file, outcome);
    BannerShown(rawName, file, outcome);
    DistinctConstants();
  }

  /** The name input shows an error exactly for a blank name. */
  lemma NameErrorShown(rawName: string, file: Option<MediaFile>, outcome: ApiOutcome)
    ensures GetFieldError(SubmitResult(rawName, file, outcome).error, NameField) != "" <==> Trim(rawName) == ""
  {
    DistinctConstants();
    if Trim(rawName) == "" {
      assert SubmitResult(rawName, file, outcome).error == Some(NameRequired);
    }
  }

  /** The video input shows an error exactly when the name is usable but the
      file is missing or not a video. */
  lemma VideoErrorShown(rawName: string, file: Option<MediaFile>, outcome: ApiOutcome)
    ensures GetFieldError(SubmitResult(rawName, file, outcome).error, VideoField) != "" <==>
      Trim(rawName) != "" && (file.None? || !IsVideoType(file.value.mimeType))
  {
    DistinctConstants();
    var r := SubmitResult(rawName, file, outcome);
    if Trim(rawName) == "" {
      assert r.error == Some(NameRequired);
    } else if file.None? {
      assert r.error == Some(VideoRequired);
    } else if !IsVideoType(file.value.mimeType) {
      assert r.error == Some(VideoInvalid);
    } else {
      assert r.error.Some? ==> r.error.value.field.None?;
    }
  }

  /** The banner shows an error exactly when the request was sent and failed. */
  lemma BannerShown(rawName: string, file: Option<MediaFile>, outcome: ApiOutcome)
    ensures BannerMessage(SubmitResult(rawName, file, outcome).error) != "" <==>
      SubmitResult(rawName, file, outcome).request.Some? && !outcome.Created?
  {
    DistinctConstants();
    var r := SubmitResult(rawName, file, outcome);
    if r.request.None? {
      assert r.error.Some? && r.error.value.field.Some?;
    }
  }

  /** The two field names differ and every fixed message is non-empty. */
  lemma DistinctConstants()
    ensures NameField != VideoField
    ensures CreateFailedMessage != "" && UnexpectedMessage != ""
    ensures NameRequired.message != "" && VideoRequired.message != "" && VideoInvalid.message != ""
  {
    assert NameField[0] != VideoField[0];
  }

  /** The picker and the submit handler classify files alike: with a usable
      name, submit reports the same error for a file the picker rejects, and a
      file the picker keeps always reaches the service. */
  lemma FileChecksAgree(rawName: string, file: Option<MediaFile>, outcome: ApiOutcome)
    ensures Trim(rawName) != "" && FileChangeResult(file).error.Some? ==>
      SubmitResult(rawName, file, outcome).error == FileChangeResult(file).error
    ensures Trim(rawName) != "" && FileChangeResult(file).selected.Some? ==>
      SubmitResult(rawName, FileChangeResult(file).selected, outcome).request
        == Some(CreateRequest(Trim(rawName), file.value))
  {
  }
}
