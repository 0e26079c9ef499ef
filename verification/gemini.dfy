/**
 * The image-comparison client (src/api/gemini.js): turning the posting's
 * image URL and the finder's file into inline image parts, sending both with
 * the prompt to the model, and parsing the reply.
 *
 * The browser and the network are parameters: `load` tells what loading an
 * image `src` gives, `read` what reading the file as a data URL gives,
 * `generate` what the model service answers for a request, and `parse` what
 * `JSON.parse` makes of a text.
 */
module Gemini {
  import opened Common
  import opened JsText

  /**
   * The `src` the image is requested from: a `t` query parameter carrying
   * the timestamp is appended, with '&' when the URL already has a query and
   * with '?' otherwise.
   */
  function CacheBustedSrc(url: string, now: nat): (src: string)
    ensures '?' in url ==> src == url + "&t=" + NatToDecimal(now)
    ensures '?' !in url ==> src == url + "?t=" + NatToDecimal(now)
    ensures |src| > |url| && src[..|url|] == url
    ensures '?' in src
    ensures src[|url| + 1..] == "t=" + NatToDecimal(now)
  {
    var sep := if '?' in url then "&" else "?";
    var src := url + sep + "t=" + NatToDecimal(now);
    assert src[|url|] == sep[0];
    assert '?' in url ==> url[0..|url|] == src[0..|url|];
    src
  }

  /** The cache-busted `src` has exactly one more '?' when the URL had none, and the same ones otherwise. */
  lemma {:induction false} CacheBustAddsOneQuery(url: string, now: nat)
    ensures CountOf(CacheBustedSrc(url, now), '?') == CountOf(url, '?') + (if '?' in url then 0 else 1)
  {
    var src := CacheBustedSrc(url, now);
    var digits := NatToDecimal(now);
    assert forall i :: 0 <= i < |digits| ==> digits[i] != '?';
    var sep := if '?' in url then "&" else "?";
    assert src == url + (sep + ("t=" + digits));
    CountOfConcat(url, sep + ("t=" + digits), '?');
    CountOfConcat(sep, "t=" + digits, '?');
    CountOfConcat("t=", digits, '?');
    CountOfAbsent(digits, '?');
  }

  /** How many times `c` occurs in `s`. */
  function CountOf(s: string, c: char): nat
  {
    if s == [] then 0 else (if s[0] == c then 1 else 0) + CountOf(s[1..], c)
  }

  lemma {:induction false} CountOfConcat(a: string, b: string, c: char)
    ensures CountOf(a + b, c) == CountOf(a, c) + CountOf(b, c)
  {
    if a != [] {
      assert (a + b)[0] == a[0] && (a + b)[1..] == a[1..] + b;
      CountOfConcat(a[1..], b, c);
    } else {
      assert a + b == b;
    }
  }

  lemma {:induction false} CountOfAbsent(s: string, c: char)
    requires c !in s
    ensures CountOf(s, c) == 0
  {
    if s != [] {
      assert c !in s[1..];
      CountOfAbsent(s[1..], c);
    }
  }

  /** `dataURL.split(",")[1]`: the text between the first and the second comma, or `undefined` without a comma. */
  function PayloadOf(dataUrl: string): (payload: Option<string>)
    ensures payload.None? <==> ',' !in dataUrl
    ensures payload.Some? ==> ',' !in payload.value
  {
    Field(Split(dataUrl, ','), 1)
  }

  /** The payload of a `header,payload` data URL is the payload. */
  lemma {:induction false} PayloadOfDataUrl(header: string, payload: string)
    requires ',' !in header && ',' !in payload
    ensures PayloadOf(header + "," + payload) == Some(payload)
  {
    SplitAtFirstSeparator(header, ',', payload);
    SplitNoSeparator(payload, ',');
    assert header + "," + payload == header + [','] + payload;
  }

  /** A payload holding a comma is cut at it: only the text up to that comma is sent. */
  lemma {:induction false} PayloadStopsAtSecondComma(header: string, first: string, rest: string)
    requires ',' !in header && ',' !in first
    ensures PayloadOf(header + "," + first + "," + rest) == Some(first)
  {
    SplitAtFirstSeparator(header, ',', first + "," + rest);
    SplitAtFirstSeparator(first, ',', rest);
    assert header + "," + first + "," + rest == header + [','] + (first + [','] + rest);
  }

  /** An `inlineData` image part: the base64 payload (possibly `undefined`) and its MIME type. */
  datatype InlineData = InlineData(data: Option<string>, mimeType: string)

  /** Why a step of the comparison rejects. */
  datatype GeminiError =
    | Rejected(message: string)      // an `Error` raised with this message
    | FileReadFailed                 // the reader's error event
    | RequestFailed                  // the model service call rejects
    | NoReplyText                    // the reply has no first candidate or no first part (a TypeError)
    | NotJson                        // `JSON.parse` throws

  /** Loading an image `src` into an `Image`: a load error, or a loaded image whose canvas export gives a data URL or throws. */
  datatype ImageLoad = LoadError | Loaded(exported: Option<string>)

  /**
   * `urlToImagePart`: the image is loaded from the cache-busted `src`; a load
   * error and a canvas that refuses export reject with their messages; a
   * JPEG export gives a part typed "image/jpeg".
   */
  function UrlToImagePart(url: string, now: nat, load: string -> ImageLoad): (r: Result<InlineData, GeminiError>)
    ensures load(CacheBustedSrc(url, now)).LoadError? ==> r == Failure(Rejected("Failed to load image URL."))
    ensures load(CacheBustedSrc(url, now)) == Loaded(None) ==> r == Failure(Rejected("Browser blocked image access (CORS)."))
    ensures r.Success? <==> load(CacheBustedSrc(url, now)).Loaded? && load(CacheBustedSrc(url, now)).exported.Some?
    ensures r.Success? ==> r.value == InlineData(PayloadOf(load(CacheBustedSrc(url, now)).exported.value), "image/jpeg")
  {
    match load(CacheBustedSrc(url, now))
    case LoadError => Failure(Rejected("Failed to load image URL."))
    case Loaded(None) => Failure(Rejected("Browser blocked image access (CORS)."))
    case Loaded(Some(dataUrl)) => Success(InlineData(PayloadOf(dataUrl), "image/jpeg"))
  }

  /** Reading the file as a data URL: the error event, or the data URL. */
  datatype FileRead = ReadError | ReadDone(dataUrl: string)

  /** `fileToImagePart`: the payload of the file's data URL, typed with the file's own MIME type. */
  function FileToImagePart(file: FileRef, read: FileRead): (r: Result<InlineData, GeminiError>)
    ensures r.Success? <==> read.ReadDone?
    ensures r.Success? ==> r.value.data == PayloadOf(read.dataUrl) && r.value.mimeType == file.mimeType
    ensures r.Failure? ==> r.error == FileReadFailed
  {
    match read
    case ReadError => Failure(FileReadFailed)
    case ReadDone(dataUrl) => Success(InlineData(PayloadOf(dataUrl), file.mimeType))
  }

  /** The instruction sent ahead of the two images. */
  const Prompt: string :=
    "Act as a professional lost-and-found matching expert.\n"
    + "     Compare Image A (Lost Item) and Image B (Found Item).\n"
    + "     Analyze color, shape, brand, and unique features.\n"
    + "     Strictly return a JSON object with:\n"
    + "        similarity: number (0-100)\n"
    + "        reason: string (concise explanation)\n"
    + "    "

  datatype Part = TextPart(text: string) | ImagePart(inlineData: InlineData)

  /** A `generateContent` call: one user turn, and the requested reply type. */
  datatype Request = Request(model: string, role: string, parts: seq<Part>, responseMimeType: string)

  /** A reply candidate: the `text` of each of its content parts, `undefined` when a part has none. */
  datatype Candidate = Candidate(texts: seq<Option<string>>)

  /** The request for a lost item's image and a found item's image, in that order. */
  function CompareRequest(lost: InlineData, found: InlineData): (req: Request)
    ensures req.model == "gemini-2.5-flash" && req.role == "user" && req.responseMimeType == "application/json"
    ensures req.parts == [TextPart(Prompt), ImagePart(lost), ImagePart(found)]
  {
    Request("gemini-2.5-flash", "user", [TextPart(Prompt), ImagePart(lost), ImagePart(found)], "application/json")
  }

  /**
   * `JSON.parse(response.candidates[0].content.parts[0].text)`: the first
   * part of the first candidate is parsed as it is, with no check of its
   * shape; a missing candidate or part throws, and so does a text that is
   * not JSON, `undefined` included.
   */
  function ParseReply<J>(candidates: seq<Candidate>, parse: string -> Option<J>): (r: Result<J, GeminiError>)
    ensures r.Success? <==> |candidates| > 0 && |candidates[0].texts| > 0 && candidates[0].texts[0].Some?
                            && parse(candidates[0].texts[0].value).Some?
    ensures r.Success? ==> Some(r.value) == parse(candidates[0].texts[0].value)
    ensures (|candidates| == 0 || |candidates[0].texts| == 0) ==> r == Failure(NoReplyText)
  {
    if |candidates| == 0 || |candidates[0].texts| == 0 then Failure(NoReplyText)
    else match candidates[0].texts[0]
      case None => Failure(NotJson)
      case Some(text) =>
        match parse(text)
        case None => Failure(NotJson)
        case Some(value) => Success(value)
  }

  /**
   * `compareItems`: the URL image first, then the file, then one model
   * call, then the parsed reply; the first step that rejects decides the error.
   */
  function CompareItems<J>(originalUrl: string, foundFile: FileRef, now: nat,
                           load: string -> ImageLoad, read: FileRead,
                           generate: Request -> Option<seq<Candidate>>,
                           parse: string -> Option<J>): (r: Result<J, GeminiError>)
    ensures UrlToImagePart(originalUrl, now, load).Failure? ==> r == Failure(UrlToImagePart(originalUrl, now, load).error)
    ensures UrlToImagePart(originalUrl, now, load).Success? && read.ReadError? ==> r == Failure(FileReadFailed)
    ensures r.Success? ==>
      var req := CompareRequest(UrlToImagePart(originalUrl, now, load).value, FileToImagePart(foundFile, read).value);
      generate(req).Some? && ParseReply(generate(req).value, parse) == Success(r.value)
    ensures UrlToImagePart(originalUrl, now, load).Success? && read.ReadDone? ==>
      var req := CompareRequest(UrlToImagePart(originalUrl, now, load).value, FileToImagePart(foundFile, read).value);
      (generate(req).None? ==> r == Failure(RequestFailed)) &&
      (generate(req).Some? ==> r == ParseReply(generate(req).value, parse))
    ensures r.Success? <==> (UrlToImagePart(originalUrl, now, load).Success? && read.ReadDone? &&
      var req := CompareRequest(UrlToImagePart(originalUrl, now, load).value, FileToImagePart(foundFile, read).value);
      generate(req).Some? && ParseReply(generate(req).value, parse).Success?)
  {
    match UrlToImagePart(originalUrl, now, load)
    case Failure(e) => Failure(e)
    case Success(lost) =>
      match FileToImagePart(foundFile, read)
      case Failure(e) => Failure(e)
      case Success(found) =>
        match generate(CompareRequest(lost, found))
        case None => Failure(RequestFailed)
        case Some(candidates) => ParseReply(candidates, parse)
  }

  /** Whatever JSON the reply holds is returned as it is: a reply without a similarity field comes back unchanged. */
  lemma {:induction false} CompareItemsReturnsParsedReply<J>(originalUrl: string, foundFile: FileRef, now: nat,
                                                              exported: string, dataUrl: string, text: string, value: J,
                                                              load: string -> ImageLoad,
                                                              generate: Request -> Option<seq<Candidate>>,
                                                              parse: string -> Option<J>)
    requires load(CacheBustedSrc(originalUrl, now)) == Loaded(Some(exported))
    requires generate(CompareRequest(InlineData(PayloadOf(exported), "image/jpeg"),
                                     InlineData(PayloadOf(dataUrl), foundFile.mimeType))) == Some([Candidate([Some(text)])])
    requires parse(text) == Some(value)
    ensures CompareItems(originalUrl, foundFile, now, load, ReadDone(dataUrl), generate, parse) == Success(value)
  {
    var lost := UrlToImagePart(originalUrl, now, load);
    var found := FileToImagePart(foundFile, ReadDone(dataUrl));
    assert lost == Success(InlineData(PayloadOf(exported), "image/jpeg"));
    assert found == Success(InlineData(PayloadOf(dataUrl), foundFile.mimeType));
  }
}
