/** The image handling of the sidebar view: pasted and dropped image files
    are checked, read and appended to the last user message of the current
    chat thread. */
module SidebarPane {
  import opened Wrappers
  import opened Text
  import opened Base64
  import opened ImageService

  /** A chat message; a message without images has the empty list. */
  datatype ChatMessage = ChatMessage(role: string, content: string, images: seq<ImagePart>)

  datatype ChatThread = ChatThread(id: string, messages: seq<ChatMessage>, lastModified: string)

  datatype Notification = Info(message: string) | Warning(message: string) | Error(message: string)

  /** What the file reader delivers for a file. */
  datatype ReadOutcome = Loaded(bytes: seq<Byte>) | NotArrayBuffer | ReadFailed

  /** A file with its declared type and what reading it gives. */
  datatype ImageFile = ImageFile(fileType: string, read: ReadOutcome)

  /** The state of the chat thread service that the sidebar touches. */
  class ChatThreadService {
    var allThreads: map<string, ChatThread>
    var currentThreadId: string

    constructor(threads: map<string, ChatThread>, current: string)
      ensures allThreads == threads && currentThreadId == current
    {
      allThreads := threads;
      currentThreadId := current;
    }

    function CurrentThread(): Option<ChatThread>
      reads this
    {
      CurrentThreadOf(allThreads, currentThreadId)
    }

    /** `dangerousSetState` with every field but `allThreads` kept. */
    method SetAllThreads(threads: map<string, ChatThread>)
      modifies this
      ensures allThreads == threads && currentThreadId == old(currentThreadId)
    {
      allThreads := threads;
    }
  }

  function CurrentThreadOf(threads: map<string, ChatThread>, current: string): (t: Option<ChatThread>)
    ensures t.Some? <==> current in threads
    ensures t.Some? ==> t.value == threads[current]
  {
    if current in threads then Some(threads[current]) else None
  }

  /** The thread with `part` appended once to its last message and a new
      modification time. */
  function AddImage(thread: ChatThread, part: ImagePart, now: string): (t: ChatThread)
    requires |thread.messages| > 0
    ensures t.id == thread.id && t.lastModified == now && |t.messages| == |thread.messages|
    ensures forall i :: 0 <= i < |t.messages| - 1 ==> t.messages[i] == thread.messages[i]
    ensures var last := |t.messages| - 1;
      t.messages[last] == thread.messages[last].(images := thread.messages[last].images + [part])
  {
    var last := |thread.messages| - 1;
    var message := thread.messages[last];
    thread.(messages := thread.messages[last := message.(images := message.images + [part])], lastModified := now)
  }

  /** The thread update of `handleImageFile` as written: the last message
      already carries the new part when the `map` appends it again. */
  function AddImageAsWritten(thread: ChatThread, part: ImagePart, now: string): ChatThread
    requires |thread.messages| > 0
  {
    var messageIdx := |thread.messages| - 1;
    var message := thread.messages[messageIdx];
    var messages := thread.messages[messageIdx := message.(images := message.images + [part])];
    thread.(messages := seq(|messages|, i requires 0 <= i < |messages| =>
      if i == messageIdx then messages[i].(images := messages[i].images + [part]) else messages[i]),
      lastModified := now)
  }

  /** As written, the last message ends with the new part twice, so the
      update differs from appending it once. */
  lemma AddImageAsWrittenAppendsTwice(thread: ChatThread, part: ImagePart, now: string)
    requires |thread.messages| > 0
    ensures var last := |thread.messages| - 1;
      AddImageAsWritten(thread, part, now).messages[last].images == thread.messages[last].images + [part, part]
    ensures AddImageAsWritten(thread, part, now) != AddImage(thread, part, now)
  {
    var last := |thread.messages| - 1;
    var images := thread.messages[last].images;
    assert (images + [part]) + [part] == images + [part, part];
    var w := AddImageAsWritten(thread, part, now).messages[last].images;
    var c := AddImage(thread, part, now).messages[last].images;
    assert |w| != |c|;
  }

  /** The result of handling one image file: what is reported and the new
      threads. */
  datatype Handled = Handled(note: Notification, allThreads: map<string, ChatThread>)

  const UnsupportedFormatNote := ". Supported formats are: PNG, JPEG, GIF, WEBP"

  predicate IsUserTurn(thread: ChatThread) {
    |thread.messages| > 0 && thread.messages[|thread.messages| - 1].role == "user"
  }

  /** `handleImageFile` followed by the reader's callback. */
  function HandleImage(threads: map<string, ChatThread>, current: string, file: ImageFile, now: string): (h: Handled)
    ensures h.note.Info? <==>
      ParseMimeType(file.fileType).Some? && file.read.Loaded? && current in threads && IsUserTurn(threads[current])
    ensures !h.note.Info? ==> h.allThreads == threads
    ensures ParseMimeType(file.fileType).None? ==>
      h.note == Warning("Unsupported image format: " + file.fileType + UnsupportedFormatNote)
    ensures h.note.Info? ==>
      var thread := threads[current];
      h.allThreads == threads[thread.id := AddImage(thread, ImagePart(ParseMimeType(file.fileType).value, file.read.bytes), now)]
  {
    var mime := ParseMimeType(file.fileType);
    if mime.None? then Handled(Warning("Unsupported image format: " + file.fileType + UnsupportedFormatNote), threads)
    else
      match file.read
      case ReadFailed => Handled(Error("Failed to read image file"), threads)
      case NotArrayBuffer => Handled(Error("Invalid file data"), threads)
      case Loaded(bytes) =>
        match CurrentThreadOf(threads, current)
        case None => Handled(Error("No active chat thread"), threads)
        case Some(thread) =>
          if !IsUserTurn(thread) then Handled(Warning("Please start typing a message before adding images"), threads)
          else Handled(Info("Image added to message"), threads[thread.id := AddImage(thread, ImagePart(mime.value, bytes), now)])
  }

  /** A successful update touches only the current thread's entry, keeps
      every earlier message of it and appends the part to its last message. */
  lemma HandleImageOnlyTouchesThread(threads: map<string, ChatThread>, current: string, file: ImageFile, now: string)
    requires HandleImage(threads, current, file, now).note.Info?
    ensures var h := HandleImage(threads, current, file, now);
      var id := threads[current].id;
      && h.allThreads.Keys == threads.Keys + {id}
      && (forall k :: k in threads && k != id ==> h.allThreads[k] == threads[k])
      && h.allThreads[id].lastModified == now
      && h.allThreads[id].messages[..|threads[current].messages| - 1] == threads[current].messages[..|threads[current].messages| - 1]
      && Last(h.allThreads[id].messages).images == Last(threads[current].messages).images + [ImagePart(ParseMimeType(file.fileType).value, file.read.bytes)]
  {
    var thread := threads[current];
    var t := AddImage(thread, ImagePart(ParseMimeType(file.fileType).value, file.read.bytes), now);
    assert t.messages[..|t.messages| - 1] == thread.messages[..|thread.messages| - 1];
  }

  function Last(messages: seq<ChatMessage>): ChatMessage
    requires |messages| > 0
  {
    messages[|messages| - 1]
  }

  /** `handleImageFile`, with the read delivered and the clock read as `now`. */
  method HandleImageFile(service: ChatThreadService, file: ImageFile, now: string) returns (note: Notification)
    modifies service
    ensures Handled(note, service.allThreads) == HandleImage(old(service.allThreads), old(service.currentThreadId), file, now)
    ensures service.currentThreadId == old(service.currentThreadId)
  {
    var mimeType := ParseMimeType(file.fileType);
    if mimeType.None? {
      return Warning("Unsupported image format: " + file.fileType + UnsupportedFormatNote);
    }
    if file.read.ReadFailed? {
      return Error("Failed to read image file");
    }
    if file.read.NotArrayBuffer? {
      return Error("Invalid file data");
    }
    var buffer := file.read.bytes;
    var thread := service.CurrentThread();
    if thread.None? {
      return Error("No active chat thread");
    }
    var messages := thread.value.messages;
    if |messages| == 0 || messages[|messages| - 1].role != "user" {
      return Warning("Please start typing a message before adding images");
    }
    var messageIdx := |messages| - 1;
    var imagePart := ImagePart(mimeType.value, buffer);
    var message := messages[messageIdx];
    messages := messages[messageIdx := message.(images := message.images + [imagePart])];
    var updated := thread.value.(messages := messages, lastModified := now);
    service.SetAllThreads(service.allThreads[thread.value.id := updated]);
    note := Info("Image added to message");
  }

  // ---------------------------------------------------------------------------
  // Paste and drop
  // ---------------------------------------------------------------------------

  /** A clipboard or drag-and-drop item: its kind, its type and the file it
      holds, if any. */
  datatype DataTransferItem = DataTransferItem(kind: string, itemType: string, file: Option<ImageFile>)

  predicate IsPastedImage(item: DataTransferItem) {
    StartsWith(item.itemType, "image/") && item.file.Some?
  }

  predicate IsDroppedImage(item: DataTransferItem) {
    item.kind == "file" && IsPastedImage(item)
  }

  /** The files a paste handles, in order. */
  function PastedImages(items: seq<DataTransferItem>): (files: seq<ImageFile>)
    ensures |files| <= |items|
    ensures forall f :: f in files ==> exists item :: item in items && IsPastedImage(item) && item.file == Some(f)
  {
    if |items| == 0 then []
    else
      var n := |items| - 1;
      var before := PastedImages(items[..n]);
      assert forall item :: item in items[..n] ==> item in items;
      before + (if IsPastedImage(items[n]) then [items[n].file.value] else [])
  }

  function FileItems(items: seq<DataTransferItem>): (fileItems: seq<DataTransferItem>)
    ensures forall item :: item in fileItems <==> item in items && item.kind == "file"
  {
    if |items| == 0 then []
    else
      var n := |items| - 1;
      FileItems(items[..n]) + (if items[n].kind == "file" then [items[n]] else [])
  }

  /** The files a drop handles, in order. */
  function DroppedImages(items: seq<DataTransferItem>): seq<ImageFile> {
    if |items| == 0 then []
    else
      var n := |items| - 1;
      DroppedImages(items[..n]) + (if IsDroppedImage(items[n]) then [items[n].file.value] else [])
  }

  lemma PastedImagesSnoc(items: seq<DataTransferItem>, item: DataTransferItem)
    ensures PastedImages(items + [item]) == PastedImages(items) + (if IsPastedImage(item) then [item.file.value] else [])
  {
    assert (items + [item])[..|items|] == items;
  }

  lemma DroppedImagesSnoc(items: seq<DataTransferItem>, item: DataTransferItem)
    ensures DroppedImages(items + [item]) == DroppedImages(items) + (if IsDroppedImage(item) then [item.file.value] else [])
  {
    assert (items + [item])[..|items|] == items;
  }

  /** A drop handles exactly what a paste of its `file` items would. */
  lemma {:induction false} DroppedArePastedFiles(items: seq<DataTransferItem>)
    ensures DroppedImages(items) == PastedImages(FileItems(items))
    decreases |items|
  {
    if |items| > 0 {
      var n := |items| - 1;
      DroppedArePastedFiles(items[..n]);
      assert items == items[..n] + [items[n]];
      DroppedImagesSnoc(items[..n], items[n]);
      if items[n].kind == "file" {
        assert FileItems(items) == FileItems(items[..n]) + [items[n]];
        PastedImagesSnoc(FileItems(items[..n]), items[n]);
      } else {
        assert FileItems(items) == FileItems(items[..n]);
      }
    }
  }

  /** An item whose type is not an image type is ignored. */
  lemma NonImageItemIgnored(items: seq<DataTransferItem>, item: DataTransferItem)
    requires !StartsWith(item.itemType, "image/")
    ensures PastedImages(items + [item]) == PastedImages(items)
    ensures DroppedImages(items + [item]) == DroppedImages(items)
  {
    assert (items + [item])[..|items|] == items;
  }

  /** Handling several files in turn: the notes in order and the last
      threads. */
  function HandleAll(threads: map<string, ChatThread>, current: string, files: seq<ImageFile>, now: string)
    : (r: (seq<Notification>, map<string, ChatThread>))
    ensures |r.0| == |files|
  {
    if |files| == 0 then ([], threads)
    else
      var n := |files| - 1;
      var before := HandleAll(threads, current, files[..n], now);
      var h := HandleImage(before.1, current, files[n], now);
      (before.0 + [h.note], h.allThreads)
  }

  lemma HandleAllSnoc(threads: map<string, ChatThread>, current: string, files: seq<ImageFile>, file: ImageFile, now: string)
    ensures var before := HandleAll(threads, current, files, now);
      var h := HandleImage(before.1, current, file, now);
      HandleAll(threads, current, files + [file], now) == (before.0 + [h.note], h.allThreads)
  {
    assert (files + [file])[..|files|] == files;
  }

  /** Files of unsupported types leave the threads as they were. */
  lemma {:induction false} UnsupportedFilesChangeNothing(threads: map<string, ChatThread>, current: string,
                                                         files: seq<ImageFile>, now: string)
    requires forall f :: f in files ==> ParseMimeType(f.fileType).None?
    ensures HandleAll(threads, current, files, now).1 == threads
    decreases |files|
  {
    if |files| > 0 {
      var n := |files| - 1;
      assert forall f :: f in files[..n] ==> f in files;
      UnsupportedFilesChangeNothing(threads, current, files[..n], now);
      assert files[n] in files;
    }
  }

  /** The `paste` listener: every item of an image type that holds a file
      is handled, in order. */
  method HandlePaste(service: ChatThreadService, items: seq<DataTransferItem>, now: string)
    returns (notes: seq<Notification>)
    modifies service
    ensures (notes, service.allThreads) == HandleAll(old(service.allThreads), old(service.currentThreadId), PastedImages(items), now)
    ensures service.currentThreadId == old(service.currentThreadId)
  {
    notes := [];
    for i := 0 to |items|
      invariant service.currentThreadId == old(service.currentThreadId)
      invariant (notes, service.allThreads) == HandleAll(old(service.allThreads), service.currentThreadId, PastedImages(items[..i]), now)
    {
      var item := items[i];
      assert items[..i + 1] == items[..i] + [item];
      PastedImagesSnoc(items[..i], item);
      if StartsWith(item.itemType, "image/") {
        var file := item.file;
        if file.Some? {
          HandleAllSnoc(old(service.allThreads), service.currentThreadId, PastedImages(items[..i]), file.value, now);
          assert PastedImages(items[..i + 1]) == PastedImages(items[..i]) + [file.value];
          var note := HandleImageFile(service, file.value, now);
          notes := notes + [note];
        } else {
          assert PastedImages(items[..i + 1]) == PastedImages(items[..i]);
        }
      } else {
        assert PastedImages(items[..i + 1]) == PastedImages(items[..i]);
      }
    }
    assert items[..|items|] == items;
  }

  /** The `drop` listener: every `file` item of an image type is handled,
      in order. */
  method HandleDrop(service: ChatThreadService, items: seq<DataTransferItem>, now: string)
    returns (notes: seq<Notification>)
    modifies service
    ensures (notes, service.allThreads) == HandleAll(old(service.allThreads), old(service.currentThreadId), DroppedImages(items), now)
    ensures service.currentThreadId == old(service.currentThreadId)
  {
    notes := [];
    for i := 0 to |items|
      invariant service.currentThreadId == old(service.currentThreadId)
      invariant (notes, service.allThreads) == HandleAll(old(service.allThreads), service.currentThreadId, DroppedImages(items[..i]), now)
    {
      var item := items[i];
      assert items[..i + 1] == items[..i] + [item];
      DroppedImagesSnoc(items[..i], item);
      if item.kind == "file" && StartsWith(item.itemType, "image/") {
        var file := item.file;
        if file.Some? {
          HandleAllSnoc(old(service.allThreads), service.currentThreadId, DroppedImages(items[..i]), file.value, now);
          assert DroppedImages(items[..i + 1]) == DroppedImages(items[..i]) + [file.value];
          var note := HandleImageFile(service, file.value, now);
          notes := notes + [note];
        } else {
          assert DroppedImages(items[..i + 1]) == DroppedImages(items[..i]);
        }
      } else {
        assert DroppedImages(items[..i + 1]) == DroppedImages(items[..i]);
      }
    }
    assert items[..|items|] == items;
  }
}
