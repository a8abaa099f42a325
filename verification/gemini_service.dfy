/** `services/geminiService.ts`: the narrative request with its
    decode-or-fallback, and the scene image request that never fails. The
    backend itself is a parameter: a function from request to reply. */
module GeminiService {
  import opened Optional
  import opened Types

  /** One message of the conversation sent to the text backend; it holds a
      role and a single text part, never image data. */
  datatype Content = Content(role: Role, text: string)

  /** What the text backend call produced: it threw, or it returned a reply
      whose `text` may be absent. */
  datatype TextReply = TextThrew | TextReplied(text: Option<string>)

  /** The two errors that leave `generateStorySegment`: the backend's own,
      rethrown, and the "No response from AI" raised for an empty reply. */
  datatype StoryError = BackendFailed | NoResponse

  const FallbackOptions: seq<string> := ["Continue"]
  const FallbackVisual: string := "A mysterious scene in a fantasy world."

  /** The conversation sent for a new input: the history as given, then the
      input as the final user message. */
  function StoryContents(history: seq<Content>, userInput: string): (c: seq<Content>)
    ensures |c| == |history| + 1 && c[..|history|] == history
    ensures c[|history|] == Content(User, userInput)
  {
    history + [Content(User, userInput)]
  }

  /** The response substituted when the reply text does not decode. */
  function Fallback(text: string): (r: AIResponse)
    ensures r.narrative == text && r.options == Some(FallbackOptions)
    ensures r.inventoryChanges == InventoryChanges(None, None) && r.questUpdate == None
    ensures r.visualDescription == FallbackVisual
  {
    AIResponse(text, Some(FallbackOptions), InventoryChanges(None, None), None, FallbackVisual)
  }

  /** Turns a text reply into the service's result. An absent or empty text
      is an error; a text `parse` rejects becomes the fallback response,
      never an error. `parse` stands for `JSON.parse` and the cast. */
  function DecodeStoryReply(reply: TextReply, parse: string -> Option<AIResponse>): (r: Result<AIResponse, StoryError>)
    ensures r.Failure? <==> reply.TextThrew? || reply.text.None? || reply.text.value == ""
    ensures reply.TextThrew? ==> r == Failure(BackendFailed)
    ensures reply.TextReplied? && r.Failure? ==> r == Failure(NoResponse)
    ensures r.Success? && parse(reply.text.value).Some? ==> r.value == parse(reply.text.value).value
    ensures r.Success? && parse(reply.text.value).None? ==>
      r.value.narrative == reply.text.value && r.value.options == Some(FallbackOptions) &&
      r.value.inventoryChanges == InventoryChanges(None, None) && r.value.questUpdate.None? &&
      r.value.visualDescription == FallbackVisual
  {
    match reply
    case TextThrew => Failure(BackendFailed)
    case TextReplied(text) =>
      if text.None? || text.value == "" then Failure(NoResponse)
      else
        match parse(text.value)
        case Some(resp) => Success(resp)
        case None => Success(Fallback(text.value))
  }

  /** `generateStorySegment`: send the contents, decode what comes back. */
  function GenerateStorySegment(history: seq<Content>, userInput: string,
                                backend: seq<Content> -> TextReply,
                                parse: string -> Option<AIResponse>): (r: Result<AIResponse, StoryError>)
    ensures var reply := backend(history + [Content(User, userInput)]);
      (r.Failure? <==> reply.TextThrew? || reply.text.None? || reply.text.value == "") &&
      (r.Success? ==> r == DecodeStoryReply(reply, parse))
  {
    DecodeStoryReply(backend(StoryContents(history, userInput)), parse)
  }

  /** One inline-data part of an image reply. */
  datatype InlineData = InlineData(mimeType: string, data: string)

  /** The image request: the prompt, the caller's tier, the aspect ratio. */
  datatype ImageRequest = ImageRequest(prompt: string, size: ImageSize, aspectRatio: string)

  /** What the image backend produced: it threw, or it returned the parts of
      its first candidate (an absent candidate, content or part list reads
      as no parts); each part has inline data or not. */
  datatype ImageReply = ImageThrew | ImageReplied(parts: seq<Option<InlineData>>)

  const AspectRatio: string := "16:9"
  const DataPrefix: string := "data:"
  const Base64Marker: string := ";base64,"
  const PlaceholderPrefix: string := "https://picsum.photos/seed/"

  /** The data URL of an inline part (RFC 2397 form with base64 data). */
  function DataUrl(d: InlineData): string
  {
    DataPrefix + d.mimeType + Base64Marker + d.data
  }

  /** The stand-in image for any failure; `seed` stands for the random
      number the source draws. */
  function Placeholder(seed: string): (url: string)
    ensures PlaceholderPrefix <= url && seed <= url[|PlaceholderPrefix|..]
  {
    PlaceholderPrefix + seed + "/800/450?grayscale&blur=2"
  }

  /** The first part that carries inline data, if any. */
  function FirstInline(parts: seq<Option<InlineData>>): (r: Option<InlineData>)
    ensures r.None? <==> forall i :: 0 <= i < |parts| ==> parts[i].None?
    ensures r.Some? ==> exists i :: 0 <= i < |parts| && parts[i] == r && forall j :: 0 <= j < i ==> parts[j].None?
  {
    if |parts| == 0 then None
    else if parts[0].Some? then parts[0]
    else
      var r := FirstInline(parts[1..]);
      assert forall i :: 1 <= i < |parts| ==> parts[i] == parts[1..][i - 1];
      r
  }

  /** The URL `generateSceneImage` returns for a reply: the data URL of the
      first inline-data part, or the placeholder. */
  function SceneImage(reply: ImageReply, seed: string): (url: string)
    ensures DataPrefix <= url || PlaceholderPrefix <= url
  {
    match reply
    case ImageThrew => Placeholder(seed)
    case ImageReplied(parts) =>
      match FirstInline(parts)
      case Some(d) => DataUrl(d)
      case None => Placeholder(seed)
  }

  /** The request `generateSceneImage` sends for a prompt and a tier. */
  function SceneRequest(prompt: string, size: ImageSize): ImageRequest
  {
    ImageRequest(prompt, size, AspectRatio)
  }

  /** `generateSceneImage`: request the scene at the caller's tier and a
      16:9 ratio, return the first part with inline data as a data URL, and
      return the placeholder when the call throws or no part has inline
      data. It never fails. */
  method GenerateSceneImage(prompt: string, size: ImageSize, backend: ImageRequest -> ImageReply, seed: string)
    returns (url: string)
    ensures var reply := backend(ImageRequest(prompt, size, "16:9"));
      && (reply.ImageThrew? ==> url == Placeholder(seed))
      && (reply.ImageReplied? && (forall i :: 0 <= i < |reply.parts| ==> reply.parts[i].None?) ==>
            url == Placeholder(seed))
      && (reply.ImageReplied? ==>
            forall i :: 0 <= i < |reply.parts| && reply.parts[i].Some? &&
                        (forall j :: 0 <= j < i ==> reply.parts[j].None?) ==>
              url == DataUrl(reply.parts[i].value))
    ensures url == SceneImage(backend(SceneRequest(prompt, size)), seed)
    ensures DataPrefix <= url || PlaceholderPrefix <= url
  {
    var reply := backend(SceneRequest(prompt, size));
    if reply.ImageThrew? {
      return Placeholder(seed);
    }
    var parts := reply.parts;
    var k := 0;
    while k < |parts|
      invariant 0 <= k <= |parts|
      invariant forall j :: 0 <= j < k ==> parts[j].None?
    {
      if parts[k].Some? {
        return DataUrl(parts[k].value);
      }
      k := k + 1;
    }
    url := Placeholder(seed);
  }

  /** The first index of `c` in `s` at or after `from`, or `|s|`. */
  function IndexOf(s: string, c: char, from: nat): (k: nat)
    requires from <= |s|
    ensures from <= k <= |s|
    ensures forall j :: from <= j < k ==> s[j] != c
    ensures k < |s| ==> s[k] == c
    decreases |s| - from
  {
    if from == |s| || s[from] == c then from else IndexOf(s, c, from + 1)
  }

  /** Reads a base64 data URL back into its media type and data; the media
      type ends at the first ';'. */
  function ParseDataUrl(s: string): (r: Option<InlineData>)
    ensures r.Some? ==> DataUrl(r.value) == s && ';' !in r.value.mimeType
  {
    if |s| < |DataPrefix| || s[..|DataPrefix|] != DataPrefix then None
    else
      var k := IndexOf(s, ';', |DataPrefix|);
      if |s| - k < |Base64Marker| || s[k..k + |Base64Marker|] != Base64Marker then None
      else
        var d := InlineData(s[|DataPrefix|..k], s[k + |Base64Marker|..]);
        assert forall j :: 0 <= j < |d.mimeType| ==> d.mimeType[j] == s[|DataPrefix| + j];
        assert s == s[..|DataPrefix|] + s[|DataPrefix|..k] + s[k..k + |Base64Marker|] + s[k + |Base64Marker|..];
        Some(d)
  }

  /** A data URL reads back to the part it was built from, provided the
      media type carries no parameters, so has no ';'. The image backend's
      media types are bare (`image/png`); a parameterised one such as
      `text/plain;charset=US-ASCII` is outside this round trip. */
  lemma DataUrlRoundTrip(d: InlineData)
    requires ';' !in d.mimeType
    ensures ParseDataUrl(DataUrl(d)) == Some(d)
  {
    var s := DataUrl(d);
    var m := |DataPrefix| + |d.mimeType|;
    assert s[..|DataPrefix|] == DataPrefix;
    assert s[m] == ';';
    forall j | |DataPrefix| <= j < m ensures s[j] != ';' {
      assert s[j] == d.mimeType[j - |DataPrefix|];
    }
    var k := IndexOf(s, ';', |DataPrefix|);
    assert k == m;
    assert s[k..k + |Base64Marker|] == Base64Marker;
    assert s[|DataPrefix|..k] == d.mimeType;
    assert s[k + |Base64Marker|..] == d.data;
  }

  /** A placeholder never reads as a data URL, so a caller can tell a real
      image from the stand-in. */
  lemma PlaceholderIsNotDataUrl(seed: string)
    ensures ParseDataUrl(Placeholder(seed)) == None
  {
    assert Placeholder(seed)[0] == 'h';
  }
}
