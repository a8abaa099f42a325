/** Concrete turns: small worked instances of the delta and the turn. */
module Scenarios {
  import opened Optional
  import opened Types
  import opened Inventory
  import opened History
  import opened GeminiService
  import opened Turn

  function Delta(add: Option<seq<string>>, remove: Option<seq<string>>, quest: Option<string>): AIResponse
  {
    AIResponse("You walk on.", Some(["Look around"]), InventoryChanges(add, remove), quest, "A road.")
  }

  /** An empty inventory gains a torch. */
  lemma AddTorchToEmpty(gs: GameState, newId: nat -> string)
    requires gs.inventory == []
    ensures ApplyDelta(gs, Delta(Some(["torch"]), None, None), newId).inventory
         == [InventoryItem(newId(0), "torch", None)]
  {
  }

  /** Names are inserted in list order; a repeated name keeps the identifier
      drawn at its first position. */
  lemma AddInListOrder(newId: nat -> string)
    ensures AddItems([], ["rope", "lamp", "rope"], newId)
         == [InventoryItem(newId(0), "rope", None), InventoryItem(newId(1), "lamp", None)]
  {
    var add := ["rope", "lamp", "rope"];
    var ps := InsertedPositions(Names([]), add);
    assert Names([]) == [];
    assert add[..1] == ["rope"] && add[..2] == ["rope", "lamp"];
    assert FirstNew([], add, 0) && FirstNew([], add, 1) && !FirstNew([], add, 2);
    assert 0 in ps && 1 in ps && 2 !in ps;
    IncreasingBelow(ps, 2);
    assert ps == [0, 1];
  }

  /** A strictly increasing sequence of naturals below `n` has at most `n`
      elements. */
  lemma {:induction false} IncreasingBelow(ps: seq<nat>, n: nat)
    requires forall i, j :: 0 <= i < j < |ps| ==> ps[i] < ps[j]
    requires forall i :: 0 <= i < |ps| ==> ps[i] < n
    ensures |ps| <= n
  {
    if |ps| > 0 {
      var last := ps[|ps| - 1];
      IncreasingBelow(ps[..|ps| - 1], last);
    }
  }

  /** Adding a torch that is already held changes nothing. */
  lemma AddTorchTwice(gs: GameState, newId: nat -> string, id: string)
    requires gs.inventory == [InventoryItem(id, "torch", None)]
    ensures ApplyDelta(gs, Delta(Some(["torch", "torch"]), None, None), newId) == gs
  {
    assert Names(gs.inventory) == ["torch"];
  }

  /** Removing a held key and an absent sword leaves nothing, without error. */
  lemma RemoveKeyAndAbsentSword(gs: GameState, newId: nat -> string, id: string)
    requires gs.inventory == [InventoryItem(id, "key", None)]
    ensures ApplyDelta(gs, Delta(None, Some(["key", "sword"]), None), newId).inventory == []
  {
  }

  /** An empty quest update is falsy and keeps the quest. */
  lemma EmptyQuestUpdateKeepsQuest(gs: GameState, newId: nat -> string)
    ensures ApplyDelta(gs, Delta(None, None, Some("")), newId).currentQuest == gs.currentQuest
    ensures ApplyDelta(gs, Delta(None, None, Some("Find the key.")), newId).currentQuest == "Find the key."
  {
  }

  /** The handler's own catch around the image call: were the outcome a
      throw, the narrator segment would be left without an image and the
      next action would still be accepted. The image service absorbs its
      failures, so a composed turn never takes this branch. */
  lemma ImageThrowDoesNotBlock(s: Session, action: string, next: string, st: Stamps, resp: AIResponse)
    requires !Rejects(s, action) && FreshIds(s, st) && Trim(next) != ""
    ensures var r := HandleAction(s, action, st, Success(resp), Threw);
      && StatusOf(r.history[|s.history| + 1]) == ResolvedWithoutImage
      && !Rejects(r, next)
  {
    TurnSucceeds(s, action, st, resp, Threw);
  }

  /** The blank or whitespace-only action on the first turn is ignored. */
  lemma BlankActionIgnored(st: Stamps, narrative: Result<AIResponse, StoryError>, image: ImageOutcome)
    ensures HandleAction(InitialSession, " \t\n", st, narrative, image) == InitialSession
  {
    assert Trim(" \t\n") == "";
  }
}
