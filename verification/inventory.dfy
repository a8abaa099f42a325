/** The game-state updaters of `App.tsx`: the inventory/quest delta applied
    after each narrative response, and the image-size setting. */
module Inventory {
  import opened Optional
  import opened Types

  /** The item names, position by position. */
  function Names(inv: seq<InventoryItem>): (ns: seq<string>)
    ensures |ns| == |inv|
    ensures forall i :: 0 <= i < |inv| ==> ns[i] == inv[i].name
  {
    seq(|inv|, i requires 0 <= i < |inv| => inv[i].name)
  }

  lemma NamesConcat(a: seq<InventoryItem>, b: seq<InventoryItem>)
    ensures Names(a + b) == Names(a) + Names(b)
  {
  }

  /** No two items share a name. */
  ghost predicate UniqueNames(inv: seq<InventoryItem>)
  {
    forall i, j :: 0 <= i < j < |inv| ==> inv[i].name != inv[j].name
  }

  /** `a` is `b` with some elements dropped and the rest in their order. */
  ghost predicate SubsequenceOf<T>(a: seq<T>, b: seq<T>)
    decreases |b|
  {
    |a| == 0 || (|b| > 0 && ((a[0] == b[0] && SubsequenceOf(a[1..], b[1..])) || SubsequenceOf(a, b[1..])))
  }

  /** One step of the add loop: push a new item unless some item already
      has exactly this name. */
  function AddOne(inv: seq<InventoryItem>, name: string, id: string): seq<InventoryItem>
  {
    if name in Names(inv) then inv else inv + [InventoryItem(id, name, None)]
  }

  lemma AddOneNames(inv: seq<InventoryItem>, name: string, id: string)
    ensures forall n :: n in Names(AddOne(inv, name, id)) <==> n in Names(inv) || n == name
  {
    var item := InventoryItem(id, name, None);
    NamesConcat(inv, [item]);
    assert Names([item]) == [name];
  }

  /** Position `k` of `add` holds a name that is neither held nor seen
      earlier in the list: the add loop inserts it. */
  predicate FirstNew(held: seq<string>, add: seq<string>, k: nat)
  {
    k < |add| && add[k] !in held && add[k] !in add[..k]
  }

  lemma FirstNewPrefix(held: seq<string>, add: seq<string>, n: nat, k: nat)
    requires n <= |add| && k < n
    ensures FirstNew(held, add[..n], k) <==> FirstNew(held, add, k)
  {
    assert add[..n][..k] == add[..k];
  }

  /** The positions of `add` whose name is inserted, in increasing order. */
  function InsertedPositions(held: seq<string>, add: seq<string>): (ps: seq<nat>)
    ensures forall i :: 0 <= i < |ps| ==> ps[i] < |add|
    ensures forall i, j :: 0 <= i < j < |ps| ==> ps[i] < ps[j]
    ensures forall k: nat :: k in ps <==> FirstNew(held, add, k)
    decreases |add|
  {
    if |add| == 0 then []
    else
      var n := |add| - 1;
      var prev := InsertedPositions(held, add[..n]);
      assert forall k: nat :: k < n ==> (FirstNew(held, add[..n], k) <==> FirstNew(held, add, k)) by {
        forall k: nat | k < n {
          FirstNewPrefix(held, add, n, k);
        }
      }
      if FirstNew(held, add, n) then prev + [n] else prev
  }

  /** The add loop over `add` in order; the k-th name, when inserted, gets
      the fresh identifier `newId(k)`. */
  function AddItems(inv: seq<InventoryItem>, add: seq<string>, newId: nat -> string): (r: seq<InventoryItem>)
    ensures inv <= r
    ensures var ps := InsertedPositions(Names(inv), add);
      && |r| == |inv| + |ps|
      && forall i :: 0 <= i < |ps| ==> r[|inv| + i] == InventoryItem(newId(ps[i]), add[ps[i]], None)
    ensures forall n :: n in Names(r) <==> n in Names(inv) || n in add
    ensures forall i :: |inv| <= i < |r| ==> r[i].name !in Names(inv)
    ensures forall i, j :: |inv| <= i < j < |r| ==> r[i].name != r[j].name
    ensures UniqueNames(inv) ==> UniqueNames(r)
    decreases |add|
  {
    if |add| == 0 then inv
    else
      var n := |add| - 1;
      var prev := AddItems(inv, add[..n], newId);
      var last := add[n];
      assert add == add[..n] + [last];
      AddOneNames(prev, last, newId(n));
      assert forall n' :: n' in add <==> n' in add[..n] || n' == last;
      AddStepPositions(inv, add, newId, prev);
      AddStepDistinct(inv, prev, last, newId(n));
      AddOne(prev, last, newId(n))
  }

  /** The inserted suffix keeps names that are new and pairwise distinct. */
  lemma AddStepDistinct(inv: seq<InventoryItem>, prev: seq<InventoryItem>, name: string, id: string)
    requires inv <= prev
    requires forall i :: |inv| <= i < |prev| ==> prev[i].name !in Names(inv)
    requires forall i, j :: |inv| <= i < j < |prev| ==> prev[i].name != prev[j].name
    requires UniqueNames(inv) ==> UniqueNames(prev)
    ensures var r := AddOne(prev, name, id);
      && (forall i :: |inv| <= i < |r| ==> r[i].name !in Names(inv))
      && (forall i, j :: |inv| <= i < j < |r| ==> r[i].name != r[j].name)
      && (UniqueNames(inv) ==> UniqueNames(r))
  {
    if name !in Names(prev) {
      var r := AddOne(prev, name, id);
      assert r[|prev|].name == name;
      forall i | 0 <= i < |prev| ensures prev[i].name != name {
        assert Names(prev)[i] == prev[i].name;
      }
    }
  }

  /** The inserted suffix grows by the last name exactly when that name is
      new. */
  lemma AddStepPositions(inv: seq<InventoryItem>, add: seq<string>, newId: nat -> string, prev: seq<InventoryItem>)
    requires |add| > 0
    requires inv <= prev
    requires forall n :: n in Names(prev) <==> n in Names(inv) || n in add[..|add| - 1]
    requires var ps := InsertedPositions(Names(inv), add[..|add| - 1]);
      && |prev| == |inv| + |ps|
      && forall i :: 0 <= i < |ps| ==> prev[|inv| + i] == InventoryItem(newId(ps[i]), add[..|add| - 1][ps[i]], None)
    ensures var r := AddOne(prev, add[|add| - 1], newId(|add| - 1));
      var ps := InsertedPositions(Names(inv), add);
      && |r| == |inv| + |ps|
      && forall i :: 0 <= i < |ps| ==> r[|inv| + i] == InventoryItem(newId(ps[i]), add[ps[i]], None)
  {
    var n := |add| - 1;
    var ps' := InsertedPositions(Names(inv), add[..n]);
    forall i | 0 <= i < |ps'| ensures add[..n][ps'[i]] == add[ps'[i]] {
      assert ps'[i] < n;
    }
  }

  /** Adding names that are all present already changes nothing. */
  lemma {:induction false} AddPresentIsNoop(inv: seq<InventoryItem>, add: seq<string>, newId: nat -> string)
    requires forall n :: n in add ==> n in Names(inv)
    ensures AddItems(inv, add, newId) == inv
    decreases |add|
  {
    if |add| > 0 {
      AddPresentIsNoop(inv, add[..|add| - 1], newId);
    }
  }

  /** Applying the same add list twice is the same as applying it once,
      whatever identifiers the second pass would have drawn. */
  lemma AddIdempotent(inv: seq<InventoryItem>, add: seq<string>, f: nat -> string, g: nat -> string)
    ensures AddItems(AddItems(inv, add, f), add, g) == AddItems(inv, add, f)
  {
    AddPresentIsNoop(AddItems(inv, add, f), add, g);
  }

  /** The remove step: keeps, in their order, the items whose name is not in
      the remove list. The source looks names up in a set built from the
      list, which has the same members. */
  function RemoveItems(inv: seq<InventoryItem>, remove: seq<string>): (r: seq<InventoryItem>)
    ensures forall it :: it in r <==> it in inv && it.name !in remove
    ensures forall n :: n in Names(r) <==> n in Names(inv) && n !in remove
    ensures forall it :: multiset(r)[it] == if it.name in remove then 0 else multiset(inv)[it]
    ensures SubsequenceOf(r, inv)
    ensures UniqueNames(inv) ==> UniqueNames(r)
    decreases |inv|
  {
    if |inv| == 0 then []
    else
      var rest := RemoveItems(inv[1..], remove);
      var keep := inv[0].name !in remove;
      var r := if keep then [inv[0]] + rest else rest;
      KeptItems(inv, remove, rest, r);
      NamesOfKept(inv, r, remove);
      KeptCount(inv, remove, rest, r);
      KeptOrder(inv, remove, rest, r);
      r
  }

  /** Order and unique names in one step of the remove filter. */
  lemma KeptOrder(inv: seq<InventoryItem>, remove: seq<string>, rest: seq<InventoryItem>, r: seq<InventoryItem>)
    requires |inv| > 0
    requires r == if inv[0].name !in remove then [inv[0]] + rest else rest
    requires forall it :: it in rest ==> it in inv[1..]
    requires SubsequenceOf(rest, inv[1..])
    requires UniqueNames(inv[1..]) ==> UniqueNames(rest)
    ensures SubsequenceOf(r, inv)
    ensures UniqueNames(inv) ==> UniqueNames(r)
  {
    var keep := inv[0].name !in remove;
    if keep {
      assert r[1..] == rest;
    }
    if UniqueNames(inv) {
      UniqueTail(inv);
      if keep {
        UniqueCons(inv, rest);
      }
    }
  }

  /** Membership in one step of the remove filter. */
  lemma KeptItems(inv: seq<InventoryItem>, remove: seq<string>, rest: seq<InventoryItem>, r: seq<InventoryItem>)
    requires |inv| > 0
    requires r == if inv[0].name !in remove then [inv[0]] + rest else rest
    requires forall it :: it in rest <==> it in inv[1..] && it.name !in remove
    ensures forall it :: it in r <==> it in inv && it.name !in remove
  {
    assert inv == [inv[0]] + inv[1..];
    forall it ensures it in r <==> it in inv && it.name !in remove {
      assert it in inv <==> it == inv[0] || it in inv[1..];
    }
  }

  /** Multiplicities in one step of the remove filter. */
  lemma KeptCount(inv: seq<InventoryItem>, remove: seq<string>, rest: seq<InventoryItem>, r: seq<InventoryItem>)
    requires |inv| > 0
    requires r == if inv[0].name !in remove then [inv[0]] + rest else rest
    requires forall it :: multiset(rest)[it] == if it.name in remove then 0 else multiset(inv[1..])[it]
    ensures forall it :: multiset(r)[it] == if it.name in remove then 0 else multiset(inv)[it]
  {
    assert inv == [inv[0]] + inv[1..];
    assert multiset(inv) == multiset{inv[0]} + multiset(inv[1..]);
    if inv[0].name !in remove {
      assert multiset(r) == multiset{inv[0]} + multiset(rest);
    }
  }

  /** Membership by item determines membership by name. */
  lemma NamesOfKept(inv: seq<InventoryItem>, r: seq<InventoryItem>, remove: seq<string>)
    requires forall it :: it in r <==> it in inv && it.name !in remove
    ensures forall n :: n in Names(r) <==> n in Names(inv) && n !in remove
  {
    forall n ensures n in Names(r) <==> n in Names(inv) && n !in remove {
      if n in Names(r) {
        var k :| 0 <= k < |r| && Names(r)[k] == n;
        assert r[k] in r;
        var m :| 0 <= m < |inv| && inv[m] == r[k];
        assert Names(inv)[m] == n;
      }
      if n in Names(inv) && n !in remove {
        var m :| 0 <= m < |inv| && Names(inv)[m] == n;
        assert inv[m] in inv;
        var k :| 0 <= k < |r| && r[k] == inv[m];
        assert Names(r)[k] == n;
      }
    }
  }

  lemma UniqueTail(inv: seq<InventoryItem>)
    requires |inv| > 0 && UniqueNames(inv)
    ensures UniqueNames(inv[1..])
  {
    forall i, j | 0 <= i < j < |inv| - 1 ensures inv[1..][i].name != inv[1..][j].name {
      assert inv[1..][i] == inv[i + 1] && inv[1..][j] == inv[j + 1];
    }
  }

  /** Keeping the head in front of a unique-named sub-collection of the tail keeps names unique. */
  lemma UniqueCons(inv: seq<InventoryItem>, rest: seq<InventoryItem>)
    requires |inv| > 0 && UniqueNames(inv) && UniqueNames(rest)
    requires forall it :: it in rest ==> it in inv[1..]
    ensures UniqueNames([inv[0]] + rest)
  {
    var r := [inv[0]] + rest;
    forall i, j | 0 <= i < j < |r| ensures r[i].name != r[j].name {
      if i == 0 {
        assert r[j] == rest[j - 1];
        assert r[j] in inv[1..];
        var k :| 0 <= k < |inv[1..]| && inv[1..][k] == r[j];
        assert inv[k + 1] == r[j];
      } else {
        assert r[i] == rest[i - 1] && r[j] == rest[j - 1];
      }
    }
  }

  /** Names in the remove list that no item carries are a no-op. */
  lemma {:induction false} RemoveAbsentIsNoop(inv: seq<InventoryItem>, remove: seq<string>, absent: seq<string>)
    requires forall n :: n in absent ==> n !in Names(inv)
    ensures RemoveItems(inv, remove + absent) == RemoveItems(inv, remove)
    decreases |inv|
  {
    if |inv| > 0 {
      RemoveAbsentIsNoop(inv[1..], remove, absent);
    }
  }

  /** JavaScript truthiness of an optional string: absent, `null` and the
      empty string are all falsy. */
  predicate Truthy(s: Option<string>)
  {
    s.Some? && s.value != ""
  }

  /** The names a delta adds and removes; an absent list is empty. */
  function AddList(resp: AIResponse): seq<string> { resp.inventoryChanges.add.GetOr([]) }
  function RemoveList(resp: AIResponse): seq<string> { resp.inventoryChanges.remove.GetOr([]) }

  /** The `setGameState` updater run after a narrative response: adds first,
      then removes, then the quest when `quest_update` is truthy. */
  function ApplyDelta(gs: GameState, resp: AIResponse, newId: nat -> string): (r: GameState)
    ensures r.location == gs.location && r.imageSize == gs.imageSize
    ensures Truthy(resp.questUpdate) ==> r.currentQuest == resp.questUpdate.value
    ensures !Truthy(resp.questUpdate) ==> r.currentQuest == gs.currentQuest
    ensures forall n :: n in Names(r.inventory) <==>
                        (n in Names(gs.inventory) || n in AddList(resp)) && n !in RemoveList(resp)
    ensures UniqueNames(gs.inventory) ==> UniqueNames(r.inventory)
  {
    var changes := resp.inventoryChanges;
    var added := match changes.add
      case Some(names) => AddItems(gs.inventory, names, newId)
      case None => gs.inventory;
    var removed := match changes.remove
      case Some(names) => RemoveItems(added, names)
      case None => added;
    var quest := if Truthy(resp.questUpdate) then resp.questUpdate.value else gs.currentQuest;
    gs.(inventory := removed, currentQuest := quest)
  }

  /** A name both added and removed by one delta ends up absent: the remove
      step runs after the add step. */
  lemma RemoveWinsOverAdd(gs: GameState, resp: AIResponse, newId: nat -> string, n: string)
    requires n in AddList(resp) && n in RemoveList(resp)
    ensures n !in Names(ApplyDelta(gs, resp, newId).inventory)
  {
  }

  /** A delta with no lists and no quest update leaves the state as it was. */
  lemma EmptyDeltaIsNoop(gs: GameState, resp: AIResponse, newId: nat -> string)
    requires resp.inventoryChanges == InventoryChanges(None, None) && !Truthy(resp.questUpdate)
    ensures ApplyDelta(gs, resp, newId) == gs
  {
  }

  /** The `onSizeChange` updater: only the image size changes. */
  function ChangeImageSize(gs: GameState, size: ImageSize): (r: GameState)
    ensures r.imageSize == size
    ensures r.inventory == gs.inventory && r.currentQuest == gs.currentQuest && r.location == gs.location
  {
    gs.(imageSize := size)
  }

  /** The two updaters touch disjoint fields, so they commute; and a size
      change overrides any earlier one. */
  lemma SizeChangeCommutesWithDelta(gs: GameState, resp: AIResponse, newId: nat -> string, a: ImageSize, b: ImageSize)
    ensures ApplyDelta(ChangeImageSize(gs, a), resp, newId) == ChangeImageSize(ApplyDelta(gs, resp, newId), a)
    ensures ChangeImageSize(ChangeImageSize(gs, a), b) == ChangeImageSize(gs, b)
  {
  }
}
