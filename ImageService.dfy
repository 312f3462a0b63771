/** Image parts of chat messages: the conversion between image bytes and
    base64 `data:` URLs (section 3 of RFC 2397), and the per-provider
    message content that carries images and text. */
module ImageService {
  import opened Wrappers
  import opened Text
  import opened Base64
  import opened VoidSettingsTypes

  /** `VoidImageMimeType`. */
  datatype VoidImageMimeType = PNG | JPEG | GIF | WEBP | BMP

  function MimeString(m: VoidImageMimeType): string {
    match m
    case PNG => "image/png"
    case JPEG => "image/jpeg"
    case GIF => "image/gif"
    case WEBP => "image/webp"
    case BMP => "image/bmp"
  }

  /** The `VoidImageMimeType` member whose value is `s`, if any. */
  function ParseMimeType(s: string): (m: Option<VoidImageMimeType>)
    ensures m.Some? ==> MimeString(m.value) == s
    ensures m.None? ==> forall t: VoidImageMimeType :: MimeString(t) != s
  {
    if s == "image/png" then Some(PNG)
    else if s == "image/jpeg" then Some(JPEG)
    else if s == "image/gif" then Some(GIF)
    else if s == "image/webp" then Some(WEBP)
    else if s == "image/bmp" then Some(BMP)
    else None
  }

  /** Every member's string is recognised as that member. */
  lemma ParseMimeTypeRoundTrip(m: VoidImageMimeType)
    ensures ParseMimeType(MimeString(m)) == Some(m)
  {
  }

  /** `IVoidImagePart`: a MIME type and the raw bytes. */
  datatype ImagePart = ImagePart(mimeType: VoidImageMimeType, data: seq<Byte>)

  predicate NoComma(s: string) {
    forall i :: 0 <= i < |s| ==> s[i] != ','
  }

  /** `data:<mime>;base64,<payload>`. */
  function DataUrl(mimeType: string, payload: string): string {
    "data:" + mimeType + ";base64," + payload
  }

  /** A string with a comma splits into at least two pieces. */
  lemma SplitAtComma(s: string)
    requires Includes(s, ",")
    ensures |Split(s, ",")| >= 2
  {
    IncludesOccurs(s, ",");
    var i :| OccursAt(s, ",", i);
    assert IndexOf(s, ",", 0).Some?;
  }

  /** What `base64ToVSBuffer` decodes: the piece after the first comma when
      there is one (up to the next comma), else the whole string. */
  function DataPayload(s: string): string {
    if Includes(s, ",") then SplitAtComma(s); Split(s, ",")[1] else s
  }

  /** A string without commas is one piece. */
  lemma SplitNoComma(s: string)
    requires NoComma(s)
    ensures Split(s, ",") == [s]
  {
    forall j | 0 <= j
      ensures !OccursAt(s, ",", j)
    {
      if j + 1 <= |s| {
        assert s[j..j + 1][0] == s[j];
      }
    }
    assert IndexOf(s, ",", 0) == None;
  }

  /** The payload of a data URL is read back when neither the MIME type nor
      the payload holds a comma. */
  lemma PayloadOfDataUrl(mimeType: string, payload: string)
    requires NoComma(mimeType) && NoComma(payload)
    ensures DataPayload(DataUrl(mimeType, payload)) == payload
  {
    var head := "data:" + mimeType + ";base64";
    var s := DataUrl(mimeType, payload);
    assert s == head + "," + payload;
    var n := |head|;
    assert s[n..n + 1] == ",";
    assert OccursAt(s, ",", n);
    IncludesOccurs(s, ",");
    forall j | 0 <= j < n
      ensures !OccursAt(s, ",", j)
    {
      assert s[j..j + 1] == [s[j]];
      if j >= 5 && j < 5 + |mimeType| {
        assert s[j] == mimeType[j - 5];
      }
    }
    var r := IndexOf(s, ",", 0);
    assert r == Some(n);
    assert s[n + 1..] == payload;
    SplitNoComma(payload);
  }

  /** Base64 text holds no comma. */
  lemma EncodeNoComma(b: seq<Byte>)
    ensures NoComma(Encode(b))
  {
    EncodeShape(b);
    var u, p := EncodeUnpadded(b), Padding(b);
    forall i | 0 <= i < |u + p|
      ensures (u + p)[i] != ','
    {
      if i < |u| {
        assert (u + p)[i] == u[i];
      } else {
        assert (u + p)[i] == p[i - |u|];
      }
    }
  }

  lemma MimeNoComma(m: VoidImageMimeType)
    ensures NoComma(MimeString(m))
  {
  }

  /** `String.fromCharCode` of each byte: a string of code units below 256. */
  function BinaryString(b: seq<Byte>): (s: string)
    ensures |s| == |b|
    ensures forall i :: 0 <= i < |b| ==> s[i] as int == b[i]
  {
    seq(|b|, i requires 0 <= i < |b| => b[i] as char)
  }

  predicate IsBinary(s: string) {
    forall i :: 0 <= i < |s| ==> s[i] as int < 256
  }

  /** `charCodeAt` of each character of a binary string. */
  function CharCodes(s: string): (b: seq<Byte>)
    requires IsBinary(s)
    ensures |b| == |s|
    ensures forall i :: 0 <= i < |s| ==> b[i] == s[i] as int
  {
    seq(|s|, i requires 0 <= i < |s| => s[i] as int)
  }

  /** `btoa`: `None` where it throws on a character above 255. */
  function Btoa(binary: string): Option<string> {
    if IsBinary(binary) then Some(Encode(CharCodes(binary))) else None
  }

  /** `atob` as a binary string. */
  function AtobBinary(s: string): (r: Option<string>)
    ensures r.Some? ==> IsBinary(r.value)
  {
    match Atob(s)
    case None => None
    case Some(b) => Some(BinaryString(b))
  }

  /** `vsBufferToBase64`: the bytes as a base64 data URL of the given type. */
  method VsBufferToBase64(buffer: seq<Byte>, mimeType: string) returns (url: string)
    ensures url == DataUrl(mimeType, Encode(buffer))
  {
    var binary := "";
    for i := 0 to |buffer|
      invariant binary == BinaryString(buffer[..i])
    {
      binary := binary + [buffer[i] as char];
    }
    assert buffer[..|buffer|] == buffer;
    assert CharCodes(binary) == buffer;
    var base64 := Btoa(binary).value;
    url := "data:" + mimeType + ";base64," + base64;
  }

  /** `base64ToVSBuffer`: the decoded bytes of the payload, `None` where
      `atob` throws. */
  method Base64ToVSBuffer(base64: string) returns (r: Option<seq<Byte>>)
    ensures r == Atob(DataPayload(base64))
  {
    var base64Data := base64;
    if Includes(base64, ",") {
      SplitAtComma(base64);
      base64Data := Split(base64, ",")[1];
    }
    var decoded := AtobBinary(base64Data);
    if decoded.None? {
      return None;
    }
    var bytes := CopyCharCodes(decoded.value);
    assert CharCodes(BinaryString(Atob(base64Data).value)) == Atob(base64Data).value;
    r := Some(bytes);
  }

  /** The `Uint8Array` filled with the `charCodeAt` of each character. */
  method CopyCharCodes(binaryString: string) returns (b: seq<Byte>)
    requires IsBinary(binaryString)
    ensures b == CharCodes(binaryString)
  {
    var bytes := new Byte[|binaryString|];
    for i := 0 to |binaryString|
      invariant forall j :: 0 <= j < i ==> bytes[j] == binaryString[j] as int
    {
      bytes[i] := binaryString[i] as int;
    }
    b := bytes[..];
  }

  /** Decoding the data URL of an image gives its bytes back, for every
      MIME type of `VoidImageMimeType`, or any other without a comma. */
  lemma DataUrlRoundTrip(b: seq<Byte>, mimeType: string)
    requires NoComma(mimeType)
    ensures Atob(DataPayload(DataUrl(mimeType, Encode(b)))) == Some(b)
  {
    EncodeNoComma(b);
    PayloadOfDataUrl(mimeType, Encode(b));
    DecodeEncode(b);
  }

  lemma ImageRoundTrip(image: ImagePart)
    ensures Atob(DataPayload(DataUrl(MimeString(image.mimeType), Encode(image.data)))) == Some(image.data)
  {
    MimeNoComma(image.mimeType);
    DataUrlRoundTrip(image.data, MimeString(image.mimeType));
  }

  // ---------------------------------------------------------------------------
  // Provider message content
  // ---------------------------------------------------------------------------

  /** The three message shapes that carry images. */
  datatype Dialect = OpenAIStyle | AnthropicStyle | GeminiStyle

  /** The switch as written: its labels are compared with the provider's
      name, and the first is `'openai'`, which no provider is called. */
  function DialectAsWritten(p: ProviderName): Option<Dialect> {
    var id := ProviderId(p);
    if id == "openai" then Some(OpenAIStyle)
    else if id == "anthropic" then Some(AnthropicStyle)
    else if id == "gemini" then Some(GeminiStyle)
    else None
  }

  /** The shape for each provider, with the OpenAI case reaching `openAI`. */
  function ImageDialect(p: ProviderName): (d: Option<Dialect>)
    ensures d == Some(OpenAIStyle) <==> p == OpenAI
    ensures d == Some(AnthropicStyle) <==> p == Anthropic
    ensures d == Some(GeminiStyle) <==> p == Gemini
  {
    match p
    case OpenAI => Some(OpenAIStyle)
    case Anthropic => Some(AnthropicStyle)
    case Gemini => Some(GeminiStyle)
    case _ => None
  }

  /** As written, OpenAI gets no image shape, and every other provider gets
      the shape it is meant to. */
  lemma DialectAsWrittenMissesOpenAI(p: ProviderName)
    ensures ProviderId(p) != "openai"
    ensures DialectAsWritten(OpenAI) == None && ImageDialect(OpenAI) == Some(OpenAIStyle)
    ensures p != OpenAI ==> DialectAsWritten(p) == ImageDialect(p)
  {
    assert ProviderId(OpenAI)[4] != "openai"[4];
  }

  /** OpenAI and Anthropic content parts. */
  datatype ContentPart =
    | ImageUrlPart(url: string, detail: string)
    | ImageSourcePart(mediaType: string, data: string)
    | TextPart(text: string)

  /** Gemini parts. */
  datatype GeminiPart = InlineDataPart(mimeType: string, data: string) | GeminiTextPart(text: string)

  /** The message fields produced: `{content: text}`, `{content: parts}` or `{parts}`. */
  datatype MessageContent =
    | TextContent(text: string)
    | PartsContent(parts: seq<ContentPart>)
    | GeminiContent(geminiParts: seq<GeminiPart>)

  function ImageDataUrl(image: ImagePart): string {
    DataUrl(MimeString(image.mimeType), Encode(image.data))
  }

  /** An OpenAI image part: the whole data URL at high detail. */
  function OpenAIImagePart(image: ImagePart): ContentPart {
    ImageUrlPart(ImageDataUrl(image), "high")
  }

  /** The OpenAI part's url carries the image's own type, and its payload
      decodes back to the image's bytes. */
  lemma OpenAIImagePartDecodes(image: ImagePart)
    ensures OpenAIImagePart(image).ImageUrlPart? && OpenAIImagePart(image).detail == "high"
    ensures StartsWith(OpenAIImagePart(image).url, "data:" + MimeString(image.mimeType) + ";base64,")
    ensures Atob(DataPayload(OpenAIImagePart(image).url)) == Some(image.data)
  {
    ImageRoundTrip(image);
    var url := ImageDataUrl(image);
    assert url[..|"data:" + MimeString(image.mimeType) + ";base64,"|] == "data:" + MimeString(image.mimeType) + ";base64,";
  }

  /** An Anthropic image part: the payload of the data URL, without its prefix. */
  function AnthropicImagePart(image: ImagePart): (part: ContentPart)
    ensures part == ImageSourcePart(MimeString(image.mimeType), Encode(image.data))
  {
    MimeNoComma(image.mimeType);
    EncodeNoComma(image.data);
    PayloadOfDataUrl(MimeString(image.mimeType), Encode(image.data));
    ImageSourcePart(MimeString(image.mimeType), DataPayload(ImageDataUrl(image)))
  }

  /** A Gemini inline-data part: the payload of the data URL, without its prefix. */
  function GeminiImagePart(image: ImagePart): (part: GeminiPart)
    ensures part == InlineDataPart(MimeString(image.mimeType), Encode(image.data))
  {
    MimeNoComma(image.mimeType);
    EncodeNoComma(image.data);
    PayloadOfDataUrl(MimeString(image.mimeType), Encode(image.data));
    InlineDataPart(MimeString(image.mimeType), DataPayload(ImageDataUrl(image)))
  }

  /** `formatImageForProvider`: one image in the provider's shape, or the
      error thrown for a provider without images. */
  function FormatImageForProvider(image: ImagePart, p: ProviderName): (r: Result<MessageContent, string>)
    ensures r.Err? <==> ImageDialect(p).None?
    ensures r.Err? ==> r.error == "Provider " + ProviderId(p) + " does not support images"
    ensures r.Ok? ==> Atob(ImageData(r.value)) == Some(image.data)
    ensures ImageDialect(p) == Some(OpenAIStyle) ==>
      r == Ok(PartsContent([ImageUrlPart(ImageDataUrl(image), "high")]))
    ensures ImageDialect(p) == Some(AnthropicStyle) ==>
      r == Ok(PartsContent([ImageSourcePart(MimeString(image.mimeType), Encode(image.data))]))
    ensures ImageDialect(p) == Some(GeminiStyle) ==>
      r == Ok(GeminiContent([InlineDataPart(MimeString(image.mimeType), Encode(image.data))]))
  {
    ImageRoundTrip(image);
    match ImageDialect(p)
    case None => Err("Provider " + ProviderId(p) + " does not support images")
    case Some(OpenAIStyle) => OpenAIImagePartDecodes(image); Ok(PartsContent([OpenAIImagePart(image)]))
    case Some(AnthropicStyle) => Ok(PartsContent([AnthropicImagePart(image)]))
    case Some(GeminiStyle) => DecodeEncode(image.data); Ok(GeminiContent([GeminiImagePart(image)]))
  }

  /** The base64 text of the first image of a message, read the way its
      provider reads it. */
  function ImageData(c: MessageContent): string {
    match c
    case TextContent(_) => ""
    case PartsContent(parts) =>
      if |parts| == 0 then ""
      else (match parts[0]
        case ImageUrlPart(url, _) => DataPayload(url)
        case ImageSourcePart(_, data) => data
        case TextPart(_) => "")
    case GeminiContent(parts) =>
      if |parts| == 0 then ""
      else (match parts[0]
        case InlineDataPart(_, data) => data
        case GeminiTextPart(_) => "")
  }

  /** `f` applied to every element, built from the front as the loops build it. */
  function Mapped<A, B>(f: A -> B, s: seq<A>): (r: seq<B>)
    ensures |r| == |s|
    ensures forall i :: 0 <= i < |s| ==> r[i] == f(s[i])
  {
    if |s| == 0 then [] else Mapped(f, s[..|s| - 1]) + [f(s[|s| - 1])]
  }

  function OpenAIParts(images: seq<ImagePart>): (parts: seq<ContentPart>)
    ensures |parts| == |images|
    ensures forall i :: 0 <= i < |images| ==> parts[i] == OpenAIImagePart(images[i])
  {
    Mapped(OpenAIImagePart, images)
  }

  function AnthropicParts(images: seq<ImagePart>): (parts: seq<ContentPart>)
    ensures |parts| == |images|
    ensures forall i :: 0 <= i < |images| ==> parts[i] == AnthropicImagePart(images[i])
  {
    Mapped(AnthropicImagePart, images)
  }

  function GeminiParts(images: seq<ImagePart>): (parts: seq<GeminiPart>)
    ensures |parts| == |images|
    ensures forall i :: 0 <= i < |images| ==> parts[i] == GeminiImagePart(images[i])
  {
    Mapped(GeminiImagePart, images)
  }

  /** The text part, present only for a non-empty text. */
  function TextTail(text: string): seq<ContentPart> {
    if |text| > 0 then [TextPart(text)] else []
  }

  function GeminiTextTail(text: string): seq<GeminiPart> {
    if |text| > 0 then [GeminiTextPart(text)] else []
  }

  /** The content `createContentWithImages` builds for a message shape. */
  function ContentWithImages(text: string, images: seq<ImagePart>, d: Option<Dialect>): MessageContent {
    if |images| == 0 then TextContent(text)
    else match d
      case None => TextContent(text)
      case Some(OpenAIStyle) => PartsContent(OpenAIParts(images) + TextTail(text))
      case Some(AnthropicStyle) => PartsContent(AnthropicParts(images) + TextTail(text))
      case Some(GeminiStyle) => GeminiContent(GeminiParts(images) + GeminiTextTail(text))
  }

  /** The loop of the `openai` case: one image-URL part per image. */
  method CollectOpenAIParts(images: seq<ImagePart>) returns (parts: seq<ContentPart>)
    ensures parts == OpenAIParts(images)
  {
    parts := [];
    for i := 0 to |images|
      invariant parts == OpenAIParts(images[..i])
    {
      var url := VsBufferToBase64(images[i].data, MimeString(images[i].mimeType));
      assert images[..i + 1][..i] == images[..i];
      parts := parts + [ImageUrlPart(url, "high")];
    }
    assert images[..|images|] == images;
  }

  /** The loop of the `anthropic` case: one base64 source part per image. */
  method CollectAnthropicParts(images: seq<ImagePart>) returns (parts: seq<ContentPart>)
    ensures parts == AnthropicParts(images)
  {
    parts := [];
    for i := 0 to |images|
      invariant parts == AnthropicParts(images[..i])
    {
      var url := VsBufferToBase64(images[i].data, MimeString(images[i].mimeType));
      SplitAtCommaOfImage(images[i]);
      var part := ImageSourcePart(MimeString(images[i].mimeType), Split(url, ",")[1]);
      assert images[..i + 1][..i] == images[..i];
      parts := parts + [part];
    }
    assert images[..|images|] == images;
  }

  /** The loop of the `gemini` case: one inline-data part per image. */
  method CollectGeminiParts(images: seq<ImagePart>) returns (parts: seq<GeminiPart>)
    ensures parts == GeminiParts(images)
  {
    parts := [];
    for i := 0 to |images|
      invariant parts == GeminiParts(images[..i])
    {
      var url := VsBufferToBase64(images[i].data, MimeString(images[i].mimeType));
      SplitAtCommaOfImage(images[i]);
      var part := InlineDataPart(MimeString(images[i].mimeType), Split(url, ",")[1]);
      assert images[..i + 1][..i] == images[..i];
      parts := parts + [part];
    }
    assert images[..|images|] == images;
  }

  /** `createContentWithImages`: one part per image, in order, then the text. */
  method CreateContentWithImages(text: string, images: seq<ImagePart>, p: ProviderName) returns (content: MessageContent)
    ensures content == ContentWithImages(text, images, ImageDialect(p))
  {
    if |images| == 0 {
      return TextContent(text);
    }
    match ImageDialect(p) {
      case None =>
        content := TextContent(text);
      case Some(OpenAIStyle) =>
        var parts := CollectOpenAIParts(images);
        if |text| > 0 {
          parts := parts + [TextPart(text)];
        }
        content := PartsContent(parts);
      case Some(AnthropicStyle) =>
        var parts := CollectAnthropicParts(images);
        if |text| > 0 {
          parts := parts + [TextPart(text)];
        }
        content := PartsContent(parts);
      case Some(GeminiStyle) =>
        var parts := CollectGeminiParts(images);
        if |text| > 0 {
          parts := parts + [GeminiTextPart(text)];
        }
        content := GeminiContent(parts);
    }
  }

  /** The second comma-separated piece of an image's data URL is its payload. */
  lemma SplitAtCommaOfImage(image: ImagePart)
    ensures Includes(ImageDataUrl(image), ",")
    ensures |Split(ImageDataUrl(image), ",")| >= 2
    ensures Split(ImageDataUrl(image), ",")[1] == Encode(image.data)
  {
    MimeNoComma(image.mimeType);
    EncodeNoComma(image.data);
    PayloadOfDataUrl(MimeString(image.mimeType), Encode(image.data));
    var url := ImageDataUrl(image);
    var n := |"data:" + MimeString(image.mimeType) + ";base64"|;
    assert url[n..n + 1] == ",";
    IncludesOccurs(url, ",");
    SplitAtComma(url);
  }

  /** Anthropic and Gemini content: one part per image in input order, each
      holding the image's base64 text without the data-URL prefix (which
      decodes back to the image), then one text part exactly when the text
      is not empty. */
  lemma ContentWithImagesShape(text: string, images: seq<ImagePart>, p: ProviderName)
    requires |images| > 0
    ensures p == Anthropic ==>
      var c := ContentWithImages(text, images, ImageDialect(p));
      && c.PartsContent?
      && |c.parts| == |images| + (if |text| > 0 then 1 else 0)
      && (forall i :: 0 <= i < |images| ==>
            c.parts[i] == ImageSourcePart(MimeString(images[i].mimeType), Encode(images[i].data))
            && Atob(c.parts[i].data) == Some(images[i].data))
      && (|text| > 0 ==> c.parts[|images|] == TextPart(text))
    ensures p == Gemini ==>
      var c := ContentWithImages(text, images, ImageDialect(p));
      && c.GeminiContent?
      && |c.geminiParts| == |images| + (if |text| > 0 then 1 else 0)
      && (forall i :: 0 <= i < |images| ==>
            c.geminiParts[i] == InlineDataPart(MimeString(images[i].mimeType), Encode(images[i].data))
            && Atob(c.geminiParts[i].data) == Some(images[i].data))
      && (|text| > 0 ==> c.geminiParts[|images|] == GeminiTextPart(text))
  {
    if p == Anthropic {
      AnthropicContentShape(text, images);
    } else if p == Gemini {
      GeminiContentShape(text, images);
    }
  }

  lemma AnthropicContentShape(text: string, images: seq<ImagePart>)
    requires |images| > 0
    ensures
      var c := PartsContent(AnthropicParts(images) + TextTail(text));
      && |c.parts| == |images| + (if |text| > 0 then 1 else 0)
      && (forall i :: 0 <= i < |images| ==>
            c.parts[i] == ImageSourcePart(MimeString(images[i].mimeType), Encode(images[i].data))
            && Atob(c.parts[i].data) == Some(images[i].data))
      && (|text| > 0 ==> c.parts[|images|] == TextPart(text))
  {
    forall i | 0 <= i < |images| {
      DecodeEncode(images[i].data);
    }
  }

  lemma GeminiContentShape(text: string, images: seq<ImagePart>)
    requires |images| > 0
    ensures
      var c := GeminiContent(GeminiParts(images) + GeminiTextTail(text));
      && |c.geminiParts| == |images| + (if |text| > 0 then 1 else 0)
      && (forall i :: 0 <= i < |images| ==>
            c.geminiParts[i] == InlineDataPart(MimeString(images[i].mimeType), Encode(images[i].data))
            && Atob(c.geminiParts[i].data) == Some(images[i].data))
      && (|text| > 0 ==> c.geminiParts[|images|] == GeminiTextPart(text))
  {
    forall i | 0 <= i < |images| {
      DecodeEncode(images[i].data);
    }
  }

  /** Without images, or for a provider without an image shape, the content
      is the text alone, and a single image cannot be formatted. */
  lemma TextOnlyContent(text: string, images: seq<ImagePart>, p: ProviderName)
    ensures |images| == 0 ==> ContentWithImages(text, images, ImageDialect(p)) == TextContent(text)
    ensures ImageDialect(p).None? ==> ContentWithImages(text, images, ImageDialect(p)) == TextContent(text)
    ensures ImageDialect(p).None? <==> p !in [OpenAI, Anthropic, Gemini]
  {
  }

  /** As written, a message to OpenAI loses all its images: only the text is
      sent, and formatting a single image for OpenAI throws. */
  lemma OpenAIImagesDropped(text: string, images: seq<ImagePart>)
    requires |images| > 0
    ensures ContentWithImages(text, images, DialectAsWritten(OpenAI)) == TextContent(text)
    ensures ContentWithImages(text, images, ImageDialect(OpenAI)).PartsContent?
  {
    DialectAsWrittenMissesOpenAI(OpenAI);
  }
}
