/** The turn orchestration of `App.tsx`: the session record the component
    keeps and `handleAction`, written as the session states one submitted
    action goes through, in the order the handler writes them. The backends' results are
    inputs; the values the source draws from the clock and the random
    generator come in a `Stamps` record. */
module Turn {
  import opened Optional
  import opened Types
  import opened Inventory
  import opened History
  import opened GeminiService

  const InitialGameState: GameState := GameState([], "Begin your adventure.", "Unknown", Square1K)

  /** The component state `handleAction` reads and writes. */
  datatype Session = Session(
    gameState: GameState,
    history: seq<StorySegment>,
    inputValue: string,
    isLoading: bool,
    suggestedOptions: seq<string>)

  const InitialSession: Session := Session(InitialGameState, [], "", false, ["Start Adventure"])

  const MistsOfTime: string :=
    "The mists of time cloud your vision... (Error: Could not contact the spirit realm. Please try again.)"

  /** Identifiers and timestamps of one turn: the user segment's, the
      narrator segment's, the error segment's, and one fresh item id per
      position of the add list. */
  datatype Stamps = Stamps(
    userId: string, userTime: int,
    modelId: string, modelTime: int,
    errorId: string, errorTime: int,
    itemId: nat -> string)

  // ---------------------------------------------------------------------
  // The input guard: a blank action, or a turn in flight.

  /** The characters `String.prototype.trim` strips: ECMAScript WhiteSpace
      and LineTerminator. */
  predicate IsJsWhitespace(c: char)
  {
    || c == '\t' || c == '\n' || c == '\U{000B}' || c == '\U{000C}' || c == '\r'
    || c == ' ' || c == '\U{00A0}' || c == '\U{1680}'
    || ('\U{2000}' <= c <= '\U{200A}')
    || c == '\U{2028}' || c == '\U{2029}' || c == '\U{202F}' || c == '\U{205F}'
    || c == '\U{3000}' || c == '\U{FEFF}'
  }

  function TrimStart(s: string): (r: string)
    ensures |r| <= |s| && r == s[|s| - |r|..]
    ensures forall j :: 0 <= j < |s| - |r| ==> IsJsWhitespace(s[j])
    ensures |r| > 0 ==> !IsJsWhitespace(r[0])
    decreases |s|
  {
    if |s| > 0 && IsJsWhitespace(s[0]) then TrimStart(s[1..]) else s
  }

  function TrimEnd(s: string): (r: string)
    ensures |r| <= |s| && r == s[..|r|]
    ensures forall j :: |r| <= j < |s| ==> IsJsWhitespace(s[j])
    ensures |r| > 0 ==> !IsJsWhitespace(r[|r| - 1])
    decreases |s|
  {
    if |s| > 0 && IsJsWhitespace(s[|s| - 1]) then TrimEnd(s[..|s| - 1]) else s
  }

  function Trim(s: string): string
  {
    TrimEnd(TrimStart(s))
  }

  /** Every character is whitespace (the empty string included). */
  ghost predicate Blank(s: string)
  {
    forall j :: 0 <= j < |s| ==> IsJsWhitespace(s[j])
  }

  /** Trimming leaves nothing exactly when the action is all whitespace. */
  lemma TrimEmptyIffBlank(s: string)
    ensures Trim(s) == "" <==> Blank(s)
  {
    var t := TrimStart(s);
    if |t| > 0 {
      assert t[0] == s[|s| - |t|];
      assert TrimEnd(t) != "";
    }
  }

  /** The early return of `handleAction`: a blank action, or any action
      while a turn is in flight. */
  predicate Rejects(s: Session, action: string)
  {
    Trim(action) == "" || s.isLoading
  }

  /** An action is turned away exactly when it is all whitespace (empty
      included) or a turn is in flight. */
  lemma RejectsIffBlankOrBusy(s: Session, action: string)
    ensures Rejects(s, action) <==> Blank(action) || s.isLoading
  {
    TrimEmptyIffBlank(action);
  }

  // ---------------------------------------------------------------------
  // The segments a turn appends.

  /** The player's segment: the action text as typed (untrimmed), with no
      image state and no options. */
  function UserSegment(action: string, st: Stamps): (seg: StorySegment)
    ensures seg.id == st.userId && seg.role == User && seg.text == action
    ensures StatusOf(seg) == NotApplicable && seg.options.None?
  {
    StorySegment(st.userId, User, action, None, None, None, st.userTime)
  }

  /** The narrator segment as first appended: the narrative and the
      response's options, with its image pending. */
  function ModelSegment(resp: AIResponse, st: Stamps): (seg: StorySegment)
    ensures seg.id == st.modelId && seg.role == Model && seg.text == resp.narrative
    ensures seg.options == resp.options && StatusOf(seg) == Pending
  {
    StorySegment(st.modelId, Model, resp.narrative, None, Some(true), resp.options, st.modelTime)
  }

  /** The fixed in-character error: a narrator segment with no image state
      and no options. */
  function ErrorSegment(st: Stamps): (seg: StorySegment)
    ensures seg.role == Model && seg.text == MistsOfTime
    ensures StatusOf(seg) == NotApplicable && seg.options.None?
  {
    StorySegment(st.errorId, Model, MistsOfTime, None, None, None, st.errorTime)
  }

  // ---------------------------------------------------------------------
  // The steps of an accepted action.

  /** Before the backend is called: flag set, user segment appended, input
      and suggestions cleared. */
  function Submit(s: Session, action: string, st: Stamps): Session
  {
    s.(isLoading := true, history := s.history + [UserSegment(action, st)],
       inputValue := "", suggestedOptions := [])
  }

  /** On a narrative response: apply the delta, append the narrator segment
      with its image pending, publish the options. */
  function ApplyNarrative(s: Session, resp: AIResponse, st: Stamps): Session
  {
    s.(gameState := ApplyDelta(s.gameState, resp, st.itemId),
       history := s.history + [ModelSegment(resp, st)],
       suggestedOptions := resp.options.GetOr([]))
  }

  /** When the image call settles: the keyed patch. */
  function ApplyImage(s: Session, id: string, outcome: ImageOutcome): Session
  {
    s.(history := PatchImage(s.history, id, outcome))
  }

  /** When the narrative call failed: the fixed in-character error. */
  function ApplyFailure(s: Session, st: Stamps): Session
  {
    s.(history := s.history + [ErrorSegment(st)])
  }

  /** The `finally` block. */
  function Finish(s: Session): Session
  {
    s.(isLoading := false)
  }

  /** The session states one call of `handleAction` goes through, in order.
      The image call is awaited inside the same `try` as the narrative
      call, so on success the flag is cleared only after the image patch. */
  function Steps(s: Session, action: string, st: Stamps,
                 narrative: Result<AIResponse, StoryError>, image: ImageOutcome): (steps: seq<Session>)
    ensures |steps| == 0 <==> Rejects(s, action)
    ensures |steps| > 0 ==> steps[0] == Submit(s, action, st)
    ensures forall i :: 0 <= i < |steps| - 1 ==> steps[i].isLoading
    ensures |steps| > 0 ==> !steps[|steps| - 1].isLoading
    ensures !Rejects(s, action) ==> |steps| == (if narrative.Success? then 4 else 3)
  {
    if Rejects(s, action) then []
    else
      var s1 := Submit(s, action, st);
      match narrative
      case Success(resp) =>
        var s2 := ApplyNarrative(s1, resp, st);
        var s3 := ApplyImage(s2, st.modelId, image);
        [s1, s2, s3, Finish(s3)]
      case Failure(_) =>
        var s2 := ApplyFailure(s1, st);
        [s1, s2, Finish(s2)]
  }

  /** The session after `handleAction` has run to completion. */
  function HandleAction(s: Session, action: string, st: Stamps,
                        narrative: Result<AIResponse, StoryError>, image: ImageOutcome): (r: Session)
    ensures Rejects(s, action) ==> r == s
    ensures !Rejects(s, action) ==> !r.isLoading && r.inputValue == ""
    ensures |r.history| == |s.history| + (if Rejects(s, action) then 0 else 2)
  {
    var steps := Steps(s, action, st, narrative, image);
    if |steps| == 0 then s else steps[|steps| - 1]
  }

  // ---------------------------------------------------------------------
  // Properties of a turn.

  /** An accepted action, before any backend result is used, sets the flag,
      appends exactly one user segment carrying the action and clears the
      suggestions; the game state is untouched. */
  lemma AcceptedActionFirstStep(s: Session, action: string, st: Stamps,
                                narrative: Result<AIResponse, StoryError>, image: ImageOutcome)
    requires !Rejects(s, action)
    ensures var s1 := Steps(s, action, st, narrative, image)[0];
      && s1.isLoading && s1.suggestedOptions == [] && s1.gameState == s.gameState
      && |s1.history| == |s.history| + 1 && s1.history[..|s.history|] == s.history
      && s1.history[|s.history|].role == User && s1.history[|s.history|].text == action
  {
  }

  /** The states of an accepted action whose narrative succeeded. */
  lemma SucceededTurnSteps(s: Session, action: string, st: Stamps, resp: AIResponse, image: ImageOutcome)
    requires !Rejects(s, action)
    ensures var s2 := ApplyNarrative(Submit(s, action, st), resp, st);
      var s3 := ApplyImage(s2, st.modelId, image);
      Steps(s, action, st, Success(resp), image) == [Submit(s, action, st), s2, s3, Finish(s3)]
  {
  }

  /** The final session of an accepted action whose narrative succeeded. */
  lemma SucceededTurnState(s: Session, action: string, st: Stamps, resp: AIResponse, image: ImageOutcome)
    requires !Rejects(s, action)
    ensures HandleAction(s, action, st, Success(resp), image)
         == Finish(ApplyImage(ApplyNarrative(Submit(s, action, st), resp, st), st.modelId, image))
  {
  }

  /** The final session of an accepted action whose narrative failed. */
  lemma FailedTurnState(s: Session, action: string, st: Stamps, err: StoryError, image: ImageOutcome)
    requires !Rejects(s, action)
    ensures HandleAction(s, action, st, Failure(err), image) == Finish(ApplyFailure(Submit(s, action, st), st))
  {
  }

  /** Ids are distinct enough for the keyed patch to hit only the new
      narrator segment. The source takes them from the clock and does not
      guarantee this. */
  predicate FreshIds(s: Session, st: Stamps)
  {
    st.modelId != st.userId && st.modelId !in Ids(s.history)
  }

  /** Patching the last of two appended segments by its id. */
  lemma PatchLast(h: seq<StorySegment>, u: StorySegment, m: StorySegment, outcome: ImageOutcome)
    requires m.id !in Ids(h) && u.id != m.id
    ensures PatchImage(h + [u, m], m.id, outcome) == h + [u, Settle(m, outcome)]
  {
    var left := PatchImage(h + [u, m], m.id, outcome);
    var right := h + [u, Settle(m, outcome)];
    forall i | 0 <= i < |right| ensures left[i] == right[i] {
      if i < |h| {
        assert Ids(h)[i] == h[i].id;
      }
    }
  }

  /** A turn whose narrative call succeeds: the delta is applied, one user
      and one narrator segment are appended, the narrator segment carries
      the narrative and options and ends with its image settled, the
      options become the suggestions and the flag ends cleared. */
  lemma TurnSucceeds(s: Session, action: string, st: Stamps, resp: AIResponse, image: ImageOutcome)
    requires !Rejects(s, action) && FreshIds(s, st)
    ensures var r := HandleAction(s, action, st, Success(resp), image);
      && r.gameState == ApplyDelta(s.gameState, resp, st.itemId)
      && r.history == s.history + [UserSegment(action, st), Settle(ModelSegment(resp, st), image)]
      && r.suggestedOptions == resp.options.GetOr([])
      && !r.isLoading
  {
    SucceededTurnState(s, action, st, resp, image);
    PatchLast(s.history, UserSegment(action, st), ModelSegment(resp, st), image);
    assert s.history + [UserSegment(action, st)] + [ModelSegment(resp, st)]
        == s.history + [UserSegment(action, st), ModelSegment(resp, st)];
  }

  /** The narrator segment is appended with its image pending; the flag is
      still set in every state up to and including the one in which the
      image patch has settled that segment. */
  lemma FlagHeldUntilImageSettles(s: Session, action: string, st: Stamps, resp: AIResponse, image: ImageOutcome)
    requires !Rejects(s, action) && FreshIds(s, st)
    ensures var steps := Steps(s, action, st, Success(resp), image);
      && |steps| == 4
      && steps[1].history[|s.history| + 1] == ModelSegment(resp, st)
      && StatusOf(steps[1].history[|s.history| + 1]) == Pending
      && steps[2].isLoading
      && steps[2].history[|s.history| + 1] == Settle(ModelSegment(resp, st), image)
      && StatusOf(steps[2].history[|s.history| + 1]) != Pending
      && !steps[3].isLoading && steps[3].history == steps[2].history
  {
    var u := UserSegment(action, st);
    var m := ModelSegment(resp, st);
    SucceededTurnSteps(s, action, st, resp, image);
    var s2 := ApplyNarrative(Submit(s, action, st), resp, st);
    assert s2.history == s.history + [u, m] by {
      assert s.history + [u] + [m] == s.history + [u, m];
    }
    PatchLast(s.history, u, m, image);
    var s3 := ApplyImage(s2, st.modelId, image);
    assert s3.history == s.history + [u, Settle(m, image)];
    assert s3.isLoading;
  }

  /** A turn whose narrative call fails: one user segment and the fixed
      error segment, with no image or options, are appended; the game state
      and the cleared suggestions stay; the flag ends cleared. */
  lemma TurnFails(s: Session, action: string, st: Stamps, err: StoryError, image: ImageOutcome)
    requires !Rejects(s, action)
    ensures var r := HandleAction(s, action, st, Failure(err), image);
      && r.gameState == s.gameState
      && r.history == s.history + [UserSegment(action, st), ErrorSegment(st)]
      && r.suggestedOptions == []
      && !r.isLoading
  {
    FailedTurnState(s, action, st, err, image);
    assert s.history + [UserSegment(action, st)] + [ErrorSegment(st)]
        == s.history + [UserSegment(action, st), ErrorSegment(st)];
  }

  // ---------------------------------------------------------------------
  // The conversation sent to the narrative backend.

  /** The history re-expressed for the backend: each segment becomes one
      text part under the same role; ids, image state and options are
      dropped. */
  function ApiHistory(h: seq<StorySegment>): (r: seq<Content>)
    ensures |r| == |h|
    ensures forall i :: 0 <= i < |h| ==> r[i] == Content(h[i].role, h[i].text)
  {
    seq(|h|, i requires 0 <= i < |h| => Content(h[i].role, h[i].text))
  }

  /** What a turn sends: the history from before the action, re-expressed
      as text, followed by the action. It is exactly the re-expression of
      the history once the user segment is appended. */
  lemma RequestMatchesHistory(s: Session, action: string, st: Stamps)
    ensures StoryContents(ApiHistory(s.history), action) == ApiHistory(Submit(s, action, st).history)
  {
    var left := StoryContents(ApiHistory(s.history), action);
    var right := ApiHistory(Submit(s, action, st).history);
    assert |left| == |right|;
    forall i | 0 <= i < |left| ensures left[i] == right[i] {
      if i < |s.history| {
        assert left[i] == ApiHistory(s.history)[i];
      }
    }
  }

  /** Images never reach the conversation: a patch leaves it unchanged. */
  lemma ApiHistoryIgnoresImages(h: seq<StorySegment>, id: string, outcome: ImageOutcome)
    ensures ApiHistory(PatchImage(h, id, outcome)) == ApiHistory(h)
  {
  }

  /** The image a turn obtains once its narrative succeeded: the scene is
      requested for the visual description at the tier held in the game
      state when the action was submitted, widescreen. */
  function TurnImage(s: Session, resp: AIResponse,
                     imageBackend: ImageRequest -> ImageReply, seed: string): ImageOutcome
  {
    Url(SceneImage(imageBackend(SceneRequest(resp.visualDescription, s.gameState.imageSize)), seed))
  }

  /** A full turn with both backends as parameters. The image stage is
      reached only after a narrative succeeded; the image service absorbs
      every failure, so the outcome it hands back is always a URL. */
  function PlayTurn(s: Session, action: string, st: Stamps,
                    backend: seq<Content> -> TextReply, parse: string -> Option<AIResponse>,
                    imageBackend: ImageRequest -> ImageReply, seed: string): (r: Session)
    ensures Rejects(s, action) ==> r == s
    ensures !Rejects(s, action) ==> !r.isLoading && r.inputValue == "" && |r.history| == |s.history| + 2
    ensures r.gameState.imageSize == s.gameState.imageSize
  {
    var narrative := GenerateStorySegment(ApiHistory(s.history), action, backend, parse);
    match narrative
    case Success(resp) => HandleAction(s, action, st, narrative, TurnImage(s, resp, imageBackend, seed))
    case Failure(_) => HandleAction(s, action, st, narrative, Threw)
  }

  /** In a composed turn whose narrative succeeds, the narrator segment
      always ends with an image: the one the image backend produced for the
      turn's request at the session's tier, or the placeholder. The
      segment is never left without one. */
  lemma PlayedTurnHasImage(s: Session, action: string, st: Stamps,
                           backend: seq<Content> -> TextReply, parse: string -> Option<AIResponse>,
                           imageBackend: ImageRequest -> ImageReply, seed: string, resp: AIResponse)
    requires !Rejects(s, action) && FreshIds(s, st)
    requires GenerateStorySegment(ApiHistory(s.history), action, backend, parse) == Success(resp)
    ensures var r := PlayTurn(s, action, st, backend, parse, imageBackend, seed);
      var url := SceneImage(imageBackend(ImageRequest(resp.visualDescription, s.gameState.imageSize, AspectRatio)), seed);
      && r.history[|s.history| + 1].imageUrl == Some(url)
      && StatusOf(r.history[|s.history| + 1]) == ResolvedWithImage
      && (DataPrefix <= url || PlaceholderPrefix <= url)
  {
    TurnSucceeds(s, action, st, resp, TurnImage(s, resp, imageBackend, seed));
  }

  /** A composed turn whose narrative succeeds, with fresh ids: the delta
      is applied; the history gains the user segment and the narrator
      segment settled with the scene image requested at the session's tier;
      the options become the suggestions; the flag ends cleared. */
  lemma PlayedTurnSucceeds(s: Session, action: string, st: Stamps,
                           backend: seq<Content> -> TextReply, parse: string -> Option<AIResponse>,
                           imageBackend: ImageRequest -> ImageReply, seed: string, resp: AIResponse)
    requires !Rejects(s, action) && FreshIds(s, st)
    requires GenerateStorySegment(ApiHistory(s.history), action, backend, parse) == Success(resp)
    ensures var r := PlayTurn(s, action, st, backend, parse, imageBackend, seed);
      var url := SceneImage(imageBackend(ImageRequest(resp.visualDescription, s.gameState.imageSize, AspectRatio)), seed);
      && r.gameState == ApplyDelta(s.gameState, resp, st.itemId)
      && r.history == s.history + [UserSegment(action, st), Settle(ModelSegment(resp, st), Url(url))]
      && r.suggestedOptions == resp.options.GetOr([])
      && !r.isLoading
  {
    TurnSucceeds(s, action, st, resp, TurnImage(s, resp, imageBackend, seed));
  }

  /** A composed turn whose text backend throws or returns no text: the
      history gains the user segment and the fixed error segment, the game
      state stays, the suggestions stay cleared and the flag ends cleared.
      No image is requested. */
  lemma PlayedTurnFails(s: Session, action: string, st: Stamps,
                        backend: seq<Content> -> TextReply, parse: string -> Option<AIResponse>,
                        imageBackend: ImageRequest -> ImageReply, seed: string)
    requires !Rejects(s, action)
    requires var reply := backend(StoryContents(ApiHistory(s.history), action));
      reply.TextThrew? || reply.text.None? || reply.text.value == ""
    ensures var r := PlayTurn(s, action, st, backend, parse, imageBackend, seed);
      && r.gameState == s.gameState
      && r.history == s.history + [UserSegment(action, st), ErrorSegment(st)]
      && r.suggestedOptions == []
      && !r.isLoading
  {
    var narrative := GenerateStorySegment(ApiHistory(s.history), action, backend, parse);
    TurnFails(s, action, st, narrative.error, Threw);
  }

  /** When the reply text does not decode, the turn still succeeds: the raw
      text is the narrative, "Continue" is the only suggestion, the game
      state is unchanged because the fallback carries no delta, and the
      scene requested is the fallback description. */
  lemma UndecodableReplyStillPlays(s: Session, action: string, st: Stamps,
                                   backend: seq<Content> -> TextReply, parse: string -> Option<AIResponse>,
                                   imageBackend: ImageRequest -> ImageReply, seed: string, text: string)
    requires !Rejects(s, action) && FreshIds(s, st)
    requires backend(StoryContents(ApiHistory(s.history), action)) == TextReplied(Some(text))
    requires text != "" && parse(text).None?
    ensures var r := PlayTurn(s, action, st, backend, parse, imageBackend, seed);
      && r.gameState == s.gameState
      && r.suggestedOptions == ["Continue"]
      && r.history[|s.history| + 1].text == text
      && r.history[|s.history| + 1].imageUrl
         == Some(SceneImage(imageBackend(ImageRequest(FallbackVisual, s.gameState.imageSize, AspectRatio)), seed))
      && !r.isLoading
  {
    var resp := Fallback(text);
    assert GenerateStorySegment(ApiHistory(s.history), action, backend, parse) == Success(resp);
    TurnSucceeds(s, action, st, resp, TurnImage(s, resp, imageBackend, seed));
    EmptyDeltaIsNoop(s.gameState, resp, st.itemId);
  }

  // ---------------------------------------------------------------------
  // Session invariant.

  /** Only narrator segments carry image state or options. */
  ghost predicate WellFormedSegment(seg: StorySegment)
  {
    seg.role == User ==> seg.imageUrl.None? && seg.isLoadingImage.None? && seg.options.None?
  }

  /** The inventory has unique names and the history is well formed. */
  ghost predicate Valid(s: Session)
  {
    && UniqueNames(s.gameState.inventory)
    && forall i :: 0 <= i < |s.history| ==> WellFormedSegment(s.history[i])
  }

  lemma InitialSessionValid()
    ensures Valid(InitialSession) && !InitialSession.isLoading
  {
  }

  /** Every turn keeps the session valid, given ids fresh enough that the
      image patch cannot land on a user segment. */
  lemma HandleActionPreservesValid(s: Session, action: string, st: Stamps,
                                   narrative: Result<AIResponse, StoryError>, image: ImageOutcome)
    requires Valid(s) && FreshIds(s, st)
    ensures Valid(HandleAction(s, action, st, narrative, image))
  {
    if !Rejects(s, action) {
      match narrative
      case Success(resp) =>
        TurnSucceeds(s, action, st, resp, image);
        var r := HandleAction(s, action, st, narrative, image);
        forall i | 0 <= i < |r.history| ensures WellFormedSegment(r.history[i]) {
          if i < |s.history| {
            assert r.history[i] == s.history[i];
          }
        }
      case Failure(err) =>
        TurnFails(s, action, st, err, image);
    }
  }

  // ---------------------------------------------------------------------
  // The settings dialog.

  /** `onSizeChange`: only the image size of the game state changes. */
  function SetImageSize(s: Session, size: ImageSize): (r: Session)
    ensures r.gameState.imageSize == size
    ensures r.gameState.inventory == s.gameState.inventory && r.gameState.currentQuest == s.gameState.currentQuest
    ensures r.gameState.location == s.gameState.location
    ensures r.history == s.history && r.isLoading == s.isLoading && r.suggestedOptions == s.suggestedOptions
  {
    s.(gameState := ChangeImageSize(s.gameState, size))
  }

  /** For a given image outcome, changing the size before or after the
      turn gives the same session: the state updates of a turn never write
      the image size, and earlier images are not touched. Which outcome the
      turn obtains does depend on the size; see SizeChangeRetargetsImage. */
  lemma SizeChangeCommutesWithTurn(s: Session, size: ImageSize, action: string, st: Stamps,
                                   narrative: Result<AIResponse, StoryError>, image: ImageOutcome)
    ensures SetImageSize(HandleAction(s, action, st, narrative, image), size)
         == HandleAction(SetImageSize(s, size), action, st, narrative, image)
  {
    if !Rejects(s, action) && narrative.Success? {
      SizeChangeCommutesWithDelta(s.gameState, narrative.value, st.itemId, size, size);
    }
  }

  /** The image backend seen at another tier: every request is sent with
      its size replaced. */
  function AtTier(imageBackend: ImageRequest -> ImageReply, size: ImageSize): ImageRequest -> ImageReply
  {
    (q: ImageRequest) => imageBackend(q.(size := size))
  }

  /** The only effect on a composed turn of changing the size beforehand
      is the tier of its image request: playing after the change is the
      same as playing with a backend that receives requests at the new tier,
      then changing the size. */
  lemma SizeChangeRetargetsImage(s: Session, size: ImageSize, action: string, st: Stamps,
                                 backend: seq<Content> -> TextReply, parse: string -> Option<AIResponse>,
                                 imageBackend: ImageRequest -> ImageReply, seed: string)
    ensures PlayTurn(SetImageSize(s, size), action, st, backend, parse, imageBackend, seed)
         == SetImageSize(PlayTurn(s, action, st, backend, parse, AtTier(imageBackend, size), seed), size)
  {
    var narrative := GenerateStorySegment(ApiHistory(s.history), action, backend, parse);
    match narrative
    case Success(resp) =>
      var request := SceneRequest(resp.visualDescription, s.gameState.imageSize);
      assert AtTier(imageBackend, size)(request) == imageBackend(SceneRequest(resp.visualDescription, size));
      SizeChangeCommutesWithTurn(s, size, action, st, narrative, TurnImage(SetImageSize(s, size), resp, imageBackend, seed));
    case Failure(_) =>
      SizeChangeCommutesWithTurn(s, size, action, st, narrative, Threw);
  }
}
