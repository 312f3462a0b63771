/** The image attachment drop zone of the chat input: it tracks whether a
    drag is over it, and hands the first dropped or chosen image file, with
    its MIME type, to the attach callback. */
module ImageAttachment {
  import opened Wrappers
  import opened Text
  import opened Base64
  import opened ImageService

  /** A dropped or chosen file: its type and the bytes the reader delivers,
      `None` when it delivers nothing. */
  datatype AttachedFile = AttachedFile(fileType: string, contents: Option<seq<Byte>>)

  /** What the attach callback receives. */
  datatype Attachment = Attachment(data: seq<Byte>, mimeType: VoidImageMimeType)

  /** The MIME type `processImageFile` gives a file: none for a type that is
      not `image/...`, the matching member for the five known types, and PNG
      for every other image type. */
  function MimeTypeOfFile(fileType: string): (m: Option<VoidImageMimeType>)
    ensures m.Some? <==> StartsWith(fileType, "image/")
    ensures m.Some? && ParseMimeType(fileType).Some? ==> m.value == ParseMimeType(fileType).value
    ensures m.Some? && ParseMimeType(fileType).None? ==> m.value == PNG
  {
    if !StartsWith(fileType, "image/") then None
    else
      match ParseMimeType(fileType)
      case Some(mimeType) => Some(mimeType)
      case None => Some(PNG)
  }

  /** Every member's own type maps back to it. */
  lemma MimeTypeOfFileRoundTrip(m: VoidImageMimeType)
    ensures MimeTypeOfFile(MimeString(m)) == Some(m)
  {
    ParseMimeTypeRoundTrip(m);
    assert MimeString(m)[..|"image/"|] == "image/";
  }

  /** An image type outside the enum falls back to PNG, which then names a
      different type than the file's. */
  lemma UnknownImageTypeIsPng()
    ensures MimeTypeOfFile("image/svg+xml") == Some(PNG)
    ensures MimeString(MimeTypeOfFile("image/svg+xml").value) != "image/svg+xml"
  {
    assert "image/svg+xml"[..6] == "image/";
  }

  /** What `processImageFile` attaches for one file: nothing for a file that
      is not an image or that the reader delivers nothing for. */
  function AttachmentOf(file: AttachedFile): (r: seq<Attachment>)
    ensures |r| <= 1
    ensures |r| == 1 <==> StartsWith(file.fileType, "image/") && file.contents.Some?
    ensures |r| == 1 ==> r[0].data == file.contents.value && Some(r[0].mimeType) == MimeTypeOfFile(file.fileType)
  {
    match MimeTypeOfFile(file.fileType)
    case None => []
    case Some(mimeType) => if file.contents.Some? then [Attachment(file.contents.value, mimeType)] else []
  }

  /** The first file of a drop or an input change, if there is one. */
  function FirstFileAttachment(files: seq<AttachedFile>): (r: seq<Attachment>)
    ensures |files| == 0 ==> r == []
    ensures |files| > 0 ==> r == AttachmentOf(files[0])
  {
    if |files| > 0 then AttachmentOf(files[0]) else []
  }

  /** Files after the first never matter. */
  lemma LaterFilesIgnored(first: AttachedFile, rest: seq<AttachedFile>)
    ensures FirstFileAttachment([first] + rest) == FirstFileAttachment([first])
  {
  }

  /** The drop zone's state: the `isDragging` flag and the attachments
      handed to the callback so far. */
  class ImageAttachmentZone {
    var isDragging: bool
    var attached: seq<Attachment>

    constructor()
      ensures !isDragging && attached == []
    {
      isDragging := false;
      attached := [];
    }

    method HandleDragOver()
      modifies this
      ensures isDragging && attached == old(attached)
    {
      isDragging := true;
    }

    method HandleDragLeave()
      modifies this
      ensures !isDragging && attached == old(attached)
    {
      isDragging := false;
    }

    method HandleDrop(files: seq<AttachedFile>)
      modifies this
      ensures !isDragging
      ensures attached == old(attached) + FirstFileAttachment(files)
    {
      isDragging := false;
      if |files| > 0 {
        ProcessImageFile(files[0]);
      }
    }

    method HandleFileChange(files: seq<AttachedFile>)
      modifies this
      ensures isDragging == old(isDragging)
      ensures attached == old(attached) + FirstFileAttachment(files)
    {
      if |files| > 0 {
        ProcessImageFile(files[0]);
      }
    }

    method ProcessImageFile(file: AttachedFile)
      modifies this
      ensures isDragging == old(isDragging)
      ensures attached == old(attached) + AttachmentOf(file)
    {
      if !StartsWith(file.fileType, "image/") {
        return;
      }
      var mimeType := PNG;
      if file.fileType == "image/png" {
        mimeType := PNG;
      } else if file.fileType == "image/jpeg" {
        mimeType := JPEG;
      } else if file.fileType == "image/gif" {
        mimeType := GIF;
      } else if file.fileType == "image/webp" {
        mimeType := WEBP;
      } else if file.fileType == "image/bmp" {
        mimeType := BMP;
      }
      if file.contents.Some? {
        attached := attached + [Attachment(file.contents.value, mimeType)];
      }
    }
  }
}
