# Adventure turn core, modelled in Dafny

Adventure is an interactive-fiction client. Each player action becomes two
calls to a generative backend. The first returns a narrative, suggested
actions and an inventory/quest delta. The second returns a scene image. This
project models the logic between those calls:

- **Inventory and quest delta.** The `setGameState` updater in `App.tsx`.
  Adds come first and never duplicate a name. Removes follow and match by
  name. The quest is replaced only by a truthy `quest_update`.
- **The turn.** `handleAction` in `App.tsx`, written as the sequence of session
  states one action goes through:
  - the input guard;
  - appending the user segment;
  - applying the delta;
  - appending the narrator segment with its image pending;
  - the keyed image patch;
  - the fixed error segment;
  - the `finally` that clears the in-flight flag.
- **The service.** `generateStorySegment` in `services/geminiService.ts`
  builds the conversation, treats an empty reply as an error, and turns an
  undecodable reply into a fixed fallback. `generateSceneImage` returns the
  first inline-data part as a `data:` URL, or a placeholder URL on any failure.
- **The records of `types.ts`.** They are Dafny datatypes.

The backends are inputs:
- The text backend is a function from the conversation to a reply.
- `JSON.parse` is a function `string -> Option<AIResponse>`.
- The image backend is a function from the request to a reply.
- `generateSceneImage` catches every failure of its own call and returns a
  placeholder URL instead (`services/geminiService.ts:136-140`). A composed
  turn (`Turn.PlayTurn`) therefore always hands the handler a URL.
- `HandleAction` takes the image stage as an `ImageOutcome`, a URL or a
  throw, so that the handler's own catch around the image call
  (`App.tsx:106-113`) is modelled too. In the program that branch is
  unreachable.

Values the source takes from `Date.now()` and `Math.random()` are also
parameters:
- segment ids, timestamps and item ids come in a `Stamps` record;
- the placeholder URL's random part is the `seed` parameter.

Modules: `Optional` (optional values and results), `Types`, `Inventory`,
`History` (the keyed patch), `GeminiService`, `Turn` (the session and
`handleAction`), and `Scenarios` (worked instances).

Points where the code behaves differently from what a reader might expect:

- The image stage is labelled "Generate Image (Async)" (`App.tsx:93`), but
  the call is awaited inside the same `try` as the narrative call
  (`App.tsx:94-98`). The in-flight flag is therefore cleared only after the
  image stage settles, not once the narrator segment is appended.
  `Turn.FlagHeldUntilImageSettles` states this.
- Every narrator segment built from a narrative response (`App.tsx:81-88`)
  is appended with `isLoadingImage: true`, whatever its visual description
  holds. The error segment (`App.tsx:118-123`) carries no image state.
- Segment ids come from the clock, and the source does not make them
  distinct. The keyed patch hits every segment with a matching id. Lemmas
  that need the patch to hit only the new segment take `Turn.FreshIds` as
  a precondition. `HandleAction` itself has no such precondition.

## Model

| member | source | states |
|---|---|---|
| Types.SizeFromLabel | types.ts:1-5 | a string names a tier exactly when it is that tier's label, so the three labels are distinct and nothing else is a tier |
| Types.SizesClosed | types.ts:1-5 | there are exactly three tiers, each listed once, and each label reads back to its own tier |
| Inventory.InsertedPositions | App.tsx:59-66 | a position of the add list is inserted exactly when its name is neither held nor seen earlier in the list; the positions are listed in increasing order |
| Inventory.AddItems | App.tsx:59-66 | existing items stay as a prefix, in order; after them comes one new item per inserted position of the add list, in list order, carrying the name at that position, the identifier drawn for that position and no description (each name is one `AddOne` step); the result's names are the old names plus the added ones; inserted names are new and pairwise distinct, so repeats within one list collapse; unique names stay unique |
| Inventory.AddPresentIsNoop | App.tsx:61-64 | adding names that are all already held leaves the inventory unchanged |
| Inventory.AddIdempotent | App.tsx:59-66 | applying the same add list a second time, whatever ids it would draw, changes nothing |
| Inventory.RemoveItems | App.tsx:67-71 | an item survives exactly when its name is not in the remove list; each survivor keeps its multiplicity; survivors keep their relative order; unique names stay unique |
| Inventory.RemoveAbsentIsNoop | App.tsx:68-71 | extra names in the remove list that no item carries do not change the result |
| Inventory.ApplyDelta | App.tsx:57-77 | a name is held afterwards exactly when it was held or added and is not removed; the quest is replaced exactly when `quest_update` is truthy (`Truthy`: present and not the empty string); location and image size never change; unique names stay unique |
| Inventory.RemoveWinsOverAdd | App.tsx:59-71 | a name in both the add and the remove list is absent afterwards, because removal runs after addition |
| Inventory.EmptyDeltaIsNoop | App.tsx:57-77 | with no lists and a falsy quest update the game state is unchanged |
| Inventory.ChangeImageSize | App.tsx:229 | the size setter replaces the image size and leaves inventory, quest and location alone |
| Inventory.SizeChangeCommutesWithDelta | App.tsx:229 | a size change and a delta commute, and a later size change overrides an earlier one |
| History.Settle | App.tsx:100-113 | a settled segment stops loading; on a URL it carries that URL; on a throw its image field is unchanged; id, role, text, options and timestamp are kept; its status is resolved |
| History.PatchImage | App.tsx:100-113 | the patch keeps the history's length; it settles every segment with the id and leaves every other segment as it was |
| History.PatchKeepsTimeline | App.tsx:100-105 | a patch keeps every segment's id, role, text, options and timestamp, position by position |
| History.PatchAbsentIsNoop | App.tsx:100-105 | a patch whose id is in no segment leaves the history unchanged |
| History.PatchesCommute | App.tsx:100-113 | patches for two different ids give the same history in either order |
| History.PatchIdempotent | App.tsx:100-105 | settling the same outcome twice equals settling it once |
| History.PatchAfterAppend | App.tsx:100-105 | segments appended after the request, with other ids, are not touched; the patch equals patching the older history and then appending |
| GeminiService.StoryContents | services/geminiService.ts:71-74 | the conversation sent is the given history unchanged, then exactly one final user message holding the input |
| GeminiService.Fallback | services/geminiService.ts:95-100 | the fallback narrative is the raw text; options are just "Continue"; there are no inventory changes and no quest update; the visual description is the fixed mysterious-scene text |
| GeminiService.DecodeStoryReply | services/geminiService.ts:87-106 | the result is an error exactly when the call threw or the text is absent or empty; the call's own error is rethrown; a decodable text yields the decoded response; an undecodable one yields the fallback, never an error |
| GeminiService.GenerateStorySegment | services/geminiService.ts:66-107 | the backend receives the history followed by the user input; the service fails exactly when that reply threw or had no text; otherwise it returns the decoded reply |
| GeminiService.GenerateSceneImage | services/geminiService.ts:110-140 | the backend receives the prompt, the caller's tier and ratio 16:9; the first inline-data part becomes `data:<mime>;base64,<data>` (`DataUrl`); a throw or a reply without inline data gives the placeholder; the loop computes the same URL as the function form `SceneImage`; the result always starts with `data:` or the placeholder prefix |
| GeminiService.FirstInline | services/geminiService.ts:128-132 | nothing is found exactly when no part carries inline data; otherwise the result is the first part that does |
| GeminiService.SceneImage | services/geminiService.ts:110-140 | the image service never fails: whatever the backend does, the result is a `data:` URL or a placeholder URL |
| GeminiService.Placeholder | services/geminiService.ts:139 | the placeholder URL is the fixed picsum prefix followed by the random seed |
| GeminiService.ParseDataUrl | services/geminiService.ts:130 | whatever a data URL reads back to rebuilds exactly that URL, with a media type free of ';' |
| GeminiService.DataUrlRoundTrip | services/geminiService.ts:130 | a data URL built by `DataUrl` from a part reads back to that part when its media type has no ';' |
| GeminiService.PlaceholderIsNotDataUrl | services/geminiService.ts:139 | the placeholder never reads as a data URL, so a stand-in is distinguishable from a real image |
| Turn.TrimStart | App.tsx:32 | the result is a suffix of the input; everything dropped is whitespace; it does not start with whitespace |
| Turn.TrimEnd | App.tsx:32 | the result is a prefix of the input; everything dropped is whitespace; it does not end with whitespace |
| Turn.TrimEmptyIffBlank | App.tsx:32 | `action.trim()` is empty exactly when every character of the action is JavaScript whitespace |
| Turn.RejectsIffBlankOrBusy | App.tsx:32 | the guard (`Rejects`) turns an action away exactly when it is all whitespace, the empty action included, or a turn is in flight |
| Turn.UserSegment | App.tsx:35-40 | the player's segment has the user id and role, the action text as typed, untrimmed, no image state and no options |
| Turn.ModelSegment | App.tsx:80-88 | the narrator segment is appended with the narrator id, the narrative as text, the response's options and its image pending |
| Turn.ErrorSegment | App.tsx:118-123 | the error segment is a narrator segment with the fixed "mists of time" text, no image state and no options |
| Turn.Steps | App.tsx:31-127 | an action yields no step exactly when the guard rejects it; an accepted one goes through four states when the narrative succeeds and three when it fails; the first is the submit step (`Submit`); the flag is set in every step but the last and clear in the last. What the later steps hold (`ApplyNarrative`, `ApplyImage`, `ApplyFailure`, `Finish`) is stated by `Turn.FlagHeldUntilImageSettles` and `Turn.TurnFails` |
| Turn.HandleAction | App.tsx:31-127 | a rejected action changes nothing; an accepted one ends with the flag clear, the input box empty and two segments appended |
| Turn.PatchLast | App.tsx:100-105 | with an id found in no older segment, the keyed patch settles only the newly appended narrator segment |
| Turn.AcceptedActionFirstStep | App.tsx:34-44 | before any backend result, an accepted action sets the flag, appends exactly one user segment with the action as text, clears the suggestions and keeps the game state |
| Turn.TurnSucceeds | App.tsx:54-105 | on narrative success, with fresh ids, the delta is applied; the history gains the user segment and the narrator segment; the narrator segment holds the narrative and options and is settled by the image outcome; the suggestions become the options or `[]`; the flag ends clear |
| Turn.FlagHeldUntilImageSettles | App.tsx:79-126 | the narrator segment is appended pending; the flag is still set in the state where the image patch has settled it; only the following `finally` step clears the flag |
| Turn.TurnFails | App.tsx:116-126 | on narrative failure the history gains the user segment and one narrator segment with the fixed "mists of time" text, no image and no options; game state and cleared suggestions stay; the flag ends clear |
| Turn.ApiHistory | App.tsx:48-51 | each segment becomes one message with the same role and text, position by position; the message type has no image data |
| Turn.RequestMatchesHistory | App.tsx:42-54 | the conversation sent equals the text form of the history once the new user segment is appended |
| Turn.ApiHistoryIgnoresImages | App.tsx:48-51 | image patches never change the conversation sent to the backend |
| Turn.PlayTurn | App.tsx:46-98 | the composed turn, with the conversation built from the history and the image requested for the narrative's visual description at the session's tier: a rejected action changes nothing; an accepted one ends with the flag clear, the input box empty and the history two segments longer; the image size is never changed |
| Turn.PlayedTurnHasImage | App.tsx:93-105 | in a composed turn whose narrative succeeds, the narrator segment always ends resolved with an image: the URL the image service made from the request for the visual description at the session's tier, a `data:` URL or the placeholder |
| Turn.PlayedTurnSucceeds | App.tsx:46-105 | a composed turn whose narrative succeeds, with fresh ids, applies the delta, appends the user segment and the narrator segment settled with the scene image requested at the session's tier, publishes the options or `[]`, and ends with the flag clear |
| Turn.PlayedTurnFails | App.tsx:46-126 | a composed turn whose text backend throws or returns no text appends the user segment and the fixed error segment, keeps the game state and the cleared suggestions, and ends with the flag clear |
| Turn.UndecodableReplyStillPlays | services/geminiService.ts:90-101 | an undecodable non-empty reply still plays a turn: the raw text is the narrative, "Continue" is the only suggestion, the game state is unchanged, the scene requested is the fallback description at the session's tier, and the flag ends clear |
| Turn.InitialSessionValid | App.tsx:8-21 | the initial session has unique names, a well-formed history and no turn in flight |
| Turn.HandleActionPreservesValid | App.tsx:31-127 | with fresh ids, every turn keeps inventory names unique; user segments never carry an image, a loading flag or options |
| Turn.SetImageSize | App.tsx:229 | the setting replaces only the image size; inventory, quest, location, history, flag and suggestions are unchanged |
| Turn.SizeChangeCommutesWithTurn | App.tsx:229 | for a given image outcome, changing the size before or after the handler's updates gives the same session: those updates never write the size and past images are untouched |
| Turn.SizeChangeRetargetsImage | App.tsx:95-97 | changing the size before a composed turn changes only the tier of its image request: the turn equals one played with the image backend seeing every request at the new tier, followed by the size change |
| Scenarios.AddTorchToEmpty | App.tsx:59-66 | an empty inventory given `add: ["torch"]` holds exactly one torch |
| Scenarios.AddInListOrder | App.tsx:59-66 | adding "rope", "lamp", "rope" to an empty inventory gives a rope with the first identifier and then a lamp with the second, and nothing for the repeat |
| Scenarios.AddTorchTwice | App.tsx:61-64 | adding "torch" twice when a torch is held leaves the state unchanged |
| Scenarios.RemoveKeyAndAbsentSword | App.tsx:68-71 | removing "key" and the absent "sword" from a lone key empties the inventory |
| Scenarios.EmptyQuestUpdateKeepsQuest | App.tsx:73-75 | an empty `quest_update` keeps the quest; a non-empty one replaces it |
| Scenarios.ImageThrowDoesNotBlock | App.tsx:106-113 | the handler's own image catch, which a composed turn never reaches: were the image outcome a throw, the narrator segment would end resolved without an image and a non-blank next action would be accepted |
| Scenarios.BlankActionIgnored | App.tsx:32 | a whitespace-only first action leaves the initial session unchanged |

## Left out

- Rendering: the JSX of `App.tsx` (lines 138-232), `components/Sidebar.tsx` and `components/SettingsModal.tsx` are presentation only.
- Backend configuration: the `GoogleGenAI` client, model names, the system instruction, the response schema and the temperature are configuration of foreign calls. The backends are function parameters.
- Option count: the system instruction asks for two to four options (`services/geminiService.ts:22`). The response schema sets no bound on `options` (`services/geminiService.ts:34-38`), and nothing checks the count. The model does not bound `options`.
- Decoding: `JSON.parse` and the `as AIResponse` cast are the `parse` parameter. A decoded value that lacks `narrative`, `inventory_changes` or `visual_description` does not fit the `AIResponse` datatype, so what the UI does with it is not modelled.
- Absent options: `options` is optional in the model even though `types.ts` declares it required. The cast checks nothing, and `App.tsx:91` guards the absent case.
- Image reply shape: a missing candidate, content or part list becomes an empty part list, as `|| []` does. A part with inline data but an absent `mimeType` or `data` would print as "undefined" in the URL; the model takes both as strings.
- Clock and random values: `Date.now()`, the item-id suffix from `Math.random()` and the placeholder seed are parameters. Item ids are indexed by position in the add list, and an id is used only when that name is inserted.
- React scheduling: `setState` batching, stale closures over `history`, `isLoading` and `gameState.imageSize`, and the `useEffect` hooks (auto-scroll, auto-start at `App.tsx:130-136`) are framework scheduling. The turn reads the session it starts from. Its image request uses the size held when the action was submitted (`Turn.SizeChangeRetargetsImage`), and it never changes the size.
- Concurrency: because the image stage is awaited, narrative and image calls of different turns do not overlap in this code. The model runs one turn to completion. `History.PatchesCommute` and `History.PatchAfterAppend` state the keyed-patch properties an overlapping schedule would rely on.
- In-place mutation: the in-place `push` into the shallow-copied inventory is modelled as a pure function.
- Logging: `console.error` is not modelled.
- Turn.HandleAction: its contract does not say the old history is kept as a prefix. With a colliding narrator id, the keyed patch can also change an older segment. The prefix holds under `Turn.FreshIds` and is stated in `Turn.TurnSucceeds`.
- The handler's image catch (`App.tsx:106-113`): `generateSceneImage` absorbs every failure (`services/geminiService.ts:136-140`), so in the program this branch is never taken. `HandleAction` still models it for a thrown outcome, and `Turn.PlayedTurnHasImage` states that a composed turn never produces one.
- Turn.SizeChangeCommutesWithTurn: states the commutation for a fixed image outcome only. Which outcome a turn obtains depends on the size, and `Turn.SizeChangeRetargetsImage` states that dependence.
- Turn.PlayTurn: its contract gives the length of the new history, not the old history as a prefix, for the same colliding-id reason as `HandleAction`. Under `Turn.FreshIds` the full history is stated by `Turn.PlayedTurnSucceeds`; `Turn.PlayedTurnFails` needs no such condition.
