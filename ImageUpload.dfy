/** Image upload: the file type and size checks, the upload request's
    outcome, and the state of the upload hook and of the upload component. */
module ImageUpload {
  import opened Wrappers
  import opened Text

  /** A file chosen for upload: its type and its size in bytes. */
  datatype UploadFile = UploadFile(fileType: string, size: nat)

  datatype UploadOptions = UploadOptions(maxSizeInMB: nat, acceptedFileTypes: seq<string>, uploadEndpoint: string)

  /** The defaults of all three entry points. */
  const DefaultOptions := UploadOptions(5, ["image/jpeg", "image/png", "image/gif"], "/api/upload")

  /** How the request ends: `load` with its status and the `imageUrl` of the
      JSON body (`None` when the body does not parse), or `error`. */
  datatype XhrOutcome = XhrLoad(status: int, imageUrl: Option<string>) | XhrNetworkError

  function MaxSizeInBytes(maxSizeInMB: nat): nat {
    maxSizeInMB * 1024 * 1024
  }

  function TypeErrorMessage(acceptedFileTypes: seq<string>): string {
    "File type not supported. Accepted types: " + Join(acceptedFileTypes, ", ")
  }

  function SizeErrorMessage(maxSizeInMB: nat): string {
    "File is too large. Maximum size is " + NatToString(maxSizeInMB) + "MB"
  }

  const NetworkErrorMessage := "Network error occurred during upload"

  /** The checks every entry point makes before uploading: the type first,
      then the size, which may equal the limit. */
  function ValidateFile(file: UploadFile, options: UploadOptions): (error: Option<string>)
    ensures error.None? <==>
      file.fileType in options.acceptedFileTypes && file.size <= MaxSizeInBytes(options.maxSizeInMB)
    ensures file.fileType !in options.acceptedFileTypes ==> error == Some(TypeErrorMessage(options.acceptedFileTypes))
    ensures file.fileType in options.acceptedFileTypes && file.size > MaxSizeInBytes(options.maxSizeInMB) ==>
      error == Some(SizeErrorMessage(options.maxSizeInMB))
  {
    if file.fileType !in options.acceptedFileTypes then Some(TypeErrorMessage(options.acceptedFileTypes))
    else if file.size > MaxSizeInBytes(options.maxSizeInMB) then Some(SizeErrorMessage(options.maxSizeInMB))
    else None
  }

  /** By default a WEBP image is refused whatever its size, and a file of
      exactly five megabytes is accepted while one byte more is refused. */
  lemma DefaultLimits(size: nat)
    ensures ValidateFile(UploadFile("image/webp", size), DefaultOptions) == Some(TypeErrorMessage(DefaultOptions.acceptedFileTypes))
    ensures ValidateFile(UploadFile("image/png", 5242880), DefaultOptions).None?
    ensures ValidateFile(UploadFile("image/png", 5242881), DefaultOptions) == Some(SizeErrorMessage(5))
  {
    assert "image/webp" != "image/jpeg" && "image/webp" != "image/png" && "image/webp" != "image/gif";
  }

  /** A file of a refused type gets the type error even when it is also
      too large. */
  lemma TypeCheckedFirst(file: UploadFile, options: UploadOptions)
    requires file.fileType !in options.acceptedFileTypes && file.size > MaxSizeInBytes(options.maxSizeInMB)
    ensures ValidateFile(file, options) == Some(TypeErrorMessage(options.acceptedFileTypes))
    ensures ValidateFile(file, options) != Some(SizeErrorMessage(options.maxSizeInMB))
  {
    TypeAndSizeMessagesDiffer(options);
  }

  lemma TypeAndSizeMessagesDiffer(options: UploadOptions)
    ensures TypeErrorMessage(options.acceptedFileTypes) != SizeErrorMessage(options.maxSizeInMB)
  {
    var t := TypeErrorMessage(options.acceptedFileTypes);
    var s := SizeErrorMessage(options.maxSizeInMB);
    assert t[5] == 't' && s[5] == 'i';
  }

  predicate IsSuccessStatus(status: int) {
    200 <= status < 300
  }

  /** What the request's listeners decide: the image URL of a 2xx response
      with a readable body, and an error otherwise. */
  function RequestResult(outcome: XhrOutcome): (r: Result<string, string>)
    ensures r.Ok? <==> outcome.XhrLoad? && IsSuccessStatus(outcome.status) && outcome.imageUrl.Some?
    ensures r.Ok? ==> r.value == outcome.imageUrl.value
    ensures outcome.XhrLoad? && !IsSuccessStatus(outcome.status) ==>
      r == Err("Upload failed with status " + IntToString(outcome.status))
    ensures outcome.XhrLoad? && IsSuccessStatus(outcome.status) && outcome.imageUrl.None? ==>
      r == Err("Invalid response format")
    ensures outcome.XhrNetworkError? ==> r == Err(NetworkErrorMessage)
  {
    match outcome
    case XhrNetworkError => Err(NetworkErrorMessage)
    case XhrLoad(status, imageUrl) =>
      if !IsSuccessStatus(status) then Err("Upload failed with status " + IntToString(status))
      else if imageUrl.None? then Err("Invalid response format")
      else Ok(imageUrl.value)
  }

  /** `uploadImage`: a file that fails the checks is refused before any
      request is made; otherwise the request decides. */
  function UploadImage(file: UploadFile, options: UploadOptions, outcome: XhrOutcome): (r: Result<string, string>)
    ensures ValidateFile(file, options).Some? ==> r == Err(ValidateFile(file, options).value)
    ensures r.Ok? <==> ValidateFile(file, options).None? && RequestResult(outcome).Ok?
    ensures ValidateFile(file, options).None? ==> r == RequestResult(outcome)
  {
    match ValidateFile(file, options)
    case Some(error) => Err(error)
    case None => RequestResult(outcome)
  }

  // ---------------------------------------------------------------------------
  // Hook and component state
  // ---------------------------------------------------------------------------

  /** What an upload started by the hook or the component leaves once its
      listeners have run: whether it is still marked as uploading, the
      error shown, and the callbacks made. */
  datatype Settled = Settled(isUploading: bool, error: Option<string>, completed: Option<string>, reported: Option<string>)

  /** The listeners as written: a non-2xx status or an unreadable body
      throws inside the `load` listener, where the surrounding `try` no
      longer runs, so nothing is reset or reported. */
  function SettleAsWritten(outcome: XhrOutcome): Settled {
    match outcome
    case XhrNetworkError => Settled(false, Some(NetworkErrorMessage), None, Some(NetworkErrorMessage))
    case XhrLoad(status, imageUrl) =>
      if IsSuccessStatus(status) && imageUrl.Some? then Settled(false, None, imageUrl, None)
      else Settled(true, None, None, None)
  }

  /** The listeners with every failure ending the upload and reported as
      `uploadImage` reports it. */
  function Settle(outcome: XhrOutcome): (s: Settled)
    ensures !s.isUploading
    ensures s.error == s.reported
    ensures s.completed.Some? <==> s.error.None?
    ensures RequestResult(outcome).Ok? ==> s.completed == Some(RequestResult(outcome).value)
    ensures RequestResult(outcome).Err? ==> s.error == Some(RequestResult(outcome).error)
  {
    match RequestResult(outcome)
    case Ok(imageUrl) => Settled(false, None, Some(imageUrl), None)
    case Err(message) => Settled(false, Some(message), None, Some(message))
  }

  /** As written, a failed status leaves the hook uploading with no error
      and no report, where the request itself fails with a message. */
  lemma SettleAsWrittenStaysUploading(status: int, imageUrl: Option<string>)
    requires !IsSuccessStatus(status)
    ensures SettleAsWritten(XhrLoad(status, imageUrl)) == Settled(true, None, None, None)
    ensures Settle(XhrLoad(status, imageUrl)) != SettleAsWritten(XhrLoad(status, imageUrl))
    ensures UploadImage(UploadFile("image/png", 0), DefaultOptions, XhrLoad(status, imageUrl)).Err?
  {
  }

  /** The two agree wherever the written listeners do not throw. */
  lemma SettleAgreesOnSuccessAndNetworkError(outcome: XhrOutcome)
    requires outcome.XhrNetworkError? || RequestResult(outcome).Ok?
    ensures Settle(outcome) == SettleAsWritten(outcome)
  {
  }

  /** After an upload of a valid file, the hook reports exactly what
      `uploadImage` resolves or rejects with. */
  lemma SettleMatchesUploadImage(file: UploadFile, options: UploadOptions, outcome: XhrOutcome)
    requires ValidateFile(file, options).None?
    ensures UploadImage(file, options, outcome).Ok? <==> Settle(outcome).completed.Some?
    ensures UploadImage(file, options, outcome).Ok? ==> Settle(outcome).completed == Some(UploadImage(file, options, outcome).value)
    ensures UploadImage(file, options, outcome).Err? ==> Settle(outcome).reported == Some(UploadImage(file, options, outcome).error)
  {
  }

  function AsSeq(x: Option<string>): (s: seq<string>)
    ensures x.None? ==> s == []
    ensures x.Some? ==> s == [x.value]
  {
    if x.Some? then [x.value] else []
  }

  /** `useImageUpload`: the state it returns and the callbacks it makes. */
  class ImageUploadHook {
    const options: UploadOptions
    var isUploading: bool
    var progress: int
    var error: Option<string>
    var completed: seq<string>
    var reported: seq<string>

    constructor(options: UploadOptions)
      ensures this.options == options
      ensures !isUploading && progress == 0 && error.None? && completed == [] && reported == []
    {
      this.options := options;
      isUploading := false;
      progress := 0;
      error := None;
      completed := [];
      reported := [];
    }

    /** `uploadImage` of the hook: a refused file sets the error and is
        reported without starting an upload; otherwise the upload starts and
        settles. */
    method UploadImage(file: UploadFile, outcome: XhrOutcome)
      modifies this
      ensures progress == 0
      ensures ValidateFile(file, options).Some? ==>
        && isUploading == old(isUploading) && error == ValidateFile(file, options)
        && completed == old(completed) && reported == old(reported) + [error.value]
      ensures ValidateFile(file, options).None? ==>
        && isUploading == Settle(outcome).isUploading && error == Settle(outcome).error
        && completed == old(completed) + AsSeq(Settle(outcome).completed)
        && reported == old(reported) + AsSeq(Settle(outcome).reported)
    {
      error := None;
      progress := 0;
      var invalid := ValidateFile(file, options);
      if invalid.Some? {
        error := invalid;
        reported := reported + [invalid.value];
        return;
      }
      isUploading := true;
      match outcome {
        case XhrLoad(status, imageUrl) =>
          if IsSuccessStatus(status) && imageUrl.Some? {
            isUploading := false;
            completed := completed + [imageUrl.value];
          } else {
            var message := if IsSuccessStatus(status) then "Invalid response format"
                           else "Upload failed with status " + IntToString(status);
            error := Some(message);
            isUploading := false;
            reported := reported + [message];
          }
        case XhrNetworkError =>
          error := Some(NetworkErrorMessage);
          isUploading := false;
          reported := reported + [NetworkErrorMessage];
      }
    }

    /** `reset`: nothing uploading, no progress and no error. */
    method Reset()
      modifies this
      ensures !isUploading && progress == 0 && error.None?
      ensures completed == old(completed) && reported == old(reported)
    {
      isUploading := false;
      progress := 0;
      error := None;
    }
  }

  /** The `ImageUpload` component: like the hook, and it also shows a
      preview of an accepted file. */
  class ImageUploadComponent {
    const options: UploadOptions
    const showPreview: bool
    var isUploading: bool
    var progress: int
    var previewUrl: Option<string>
    var error: Option<string>
    var completed: seq<string>
    var reported: seq<string>

    constructor(options: UploadOptions, showPreview: bool)
      ensures this.options == options && this.showPreview == showPreview
      ensures !isUploading && progress == 0 && previewUrl.None? && error.None? && completed == [] && reported == []
    {
      this.options := options;
      this.showPreview := showPreview;
      isUploading := false;
      progress := 0;
      previewUrl := None;
      error := None;
      completed := [];
      reported := [];
    }

    /** `handleFileChange`: only the first file counts, and `dataUrl` is
        what the reader gives for it. */
    method HandleFileChange(files: seq<UploadFile>, dataUrl: string, outcome: XhrOutcome)
      modifies this
      ensures |files| == 0 ==>
        && isUploading == old(isUploading) && progress == old(progress) && previewUrl == old(previewUrl)
        && error == old(error) && completed == old(completed) && reported == old(reported)
      ensures |files| > 0 && ValidateFile(files[0], options).Some? ==>
        && progress == 0 && isUploading == old(isUploading) && previewUrl == old(previewUrl)
        && error == ValidateFile(files[0], options)
        && completed == old(completed) && reported == old(reported) + [error.value]
      ensures |files| > 0 && ValidateFile(files[0], options).None? ==>
        && progress == 0
        && previewUrl == (if showPreview then Some(dataUrl) else old(previewUrl))
        && isUploading == Settle(outcome).isUploading && error == Settle(outcome).error
        && completed == old(completed) + AsSeq(Settle(outcome).completed)
        && reported == old(reported) + AsSeq(Settle(outcome).reported)
    {
      if |files| == 0 {
        return;
      }
      var file := files[0];
      error := None;
      progress := 0;
      var invalid := ValidateFile(file, options);
      if invalid.Some? {
        error := invalid;
        reported := reported + [invalid.value];
        return;
      }
      if showPreview {
        previewUrl := Some(dataUrl);
      }
      UploadFile(outcome);
    }

    /** `uploadFile`. */
    method UploadFile(outcome: XhrOutcome)
      modifies this
      ensures isUploading == Settle(outcome).isUploading
      ensures error == (if Settle(outcome).error.Some? then Settle(outcome).error else old(error))
      ensures progress == old(progress) && previewUrl == old(previewUrl)
      ensures completed == old(completed) + AsSeq(Settle(outcome).completed)
      ensures reported == old(reported) + AsSeq(Settle(outcome).reported)
    {
      isUploading := true;
      var result := RequestResult(outcome);
      match result {
        case Ok(imageUrl) =>
          isUploading := false;
          completed := completed + [imageUrl];
        case Err(message) =>
          error := Some(message);
          isUploading := false;
          reported := reported + [message];
      }
    }

    /** `resetUpload`: the preview, the error and the progress are cleared;
        `isUploading` is left as it is. */
    method ResetUpload()
      modifies this
      ensures previewUrl.None? && error.None? && progress == 0
      ensures isUploading == old(isUploading) && completed == old(completed) && reported == old(reported)
    {
      previewUrl := None;
      error := None;
      progress := 0;
    }
  }
}
