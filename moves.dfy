/** `generateMoves` (src/generator.ts:195-216): it trims a record's `moves` array
    in place to `amount` entries, then resolves each alternative array to a
    move that is not already in the array. */
module Moves {
  import opened Basics
  import opened Catalog

  /** `to` keeps, in order, the entries of `from` at the strictly increasing
      positions `kept`. */
  ghost predicate Keeps<T>(kept: seq<nat>, from: seq<T>, to: seq<T>) {
    |kept| == |to| &&
    (forall j :: 0 <= j < |kept| ==> kept[j] < |from| && to[j] == from[kept[j]]) &&
    (forall i, j :: 0 <= i < j < |kept| ==> kept[i] < kept[j])
  }

  function AsSlots(names: seq<string>): (slots: seq<MoveSlot>)
    ensures |slots| == |names| && forall j :: 0 <= j < |names| ==> slots[j] == Move(names[j])
  {
    seq(|names|, j requires 0 <= j < |names| => Move(names[j]))
  }

  function Names(slots: seq<MoveSlot>): (names: seq<string>)
    requires forall j :: 0 <= j < |slots| ==> slots[j].Move?
    ensures |names| == |slots| && forall j :: 0 <= j < |slots| ==> slots[j] == Move(names[j])
  {
    seq(|slots|, j requires 0 <= j < |slots| => slots[j].name)
  }

  /** `resolved` is a value the original entry `slot` may become. */
  predicate Resolves(slot: MoveSlot, resolved: string) {
    match slot
    case Move(name) => resolved == name
    case Alternatives(options) => resolved in options
  }

  /** `after` is `before` with every alternative resolved, and each resolved
      alternative differs from every other entry of the result. */
  ghost predicate Resolution(before: seq<MoveSlot>, after: seq<MoveSlot>) {
    |after| == |before| &&
    (forall j :: 0 <= j < |after| ==> after[j].Move? && Resolves(before[j], after[j].name)) &&
    (forall j, k :: 0 <= j < |after| && 0 <= k < |after| && j != k && before[j].Alternatives? ==> after[j] != after[k])
  }

  /** `moves` is what `generateMoves` leaves of the entries `before`: the entries at
      the increasing positions `kept`, each one the original string or one of the
      original alternatives, and each resolved alternative different from every
      other move. */
  ghost predicate MovesFrom(kept: seq<nat>, before: seq<MoveSlot>, moves: seq<string>) {
    |kept| == |moves| &&
    (forall i, j :: 0 <= i < j < |kept| ==> kept[i] < kept[j]) &&
    (forall j :: 0 <= j < |kept| ==> kept[j] < |before| && Resolves(before[kept[j]], moves[j])) &&
    (forall j, k :: 0 <= j < |kept| && 0 <= k < |kept| && j != k && before[kept[j]].Alternatives? ==> moves[j] != moves[k])
  }

  /** Strictly increasing positions grow by at least one per step. */
  lemma {:induction false} Spread(kept: seq<nat>, i: nat, j: nat)
    requires i <= j < |kept|
    requires forall a, b :: 0 <= a < b < |kept| ==> kept[a] < kept[b]
    ensures kept[j] >= kept[i] + (j - i)
    decreases j - i
  {
    if i < j {
      Spread(kept, i + 1, j);
    }
  }

  /** An array `generateMoves` already went through holds only strings, at most
      `amount` of them. When `generateMoves` runs on such an array again, with the
      same or a larger `amount`, it hands the same moves back and leaves the array
      as it was. */
  lemma ResolvedStays(kept: seq<nat>, before: seq<MoveSlot>, moves: seq<string>)
    requires forall j :: 0 <= j < |before| ==> before[j].Move?
    requires |moves| == |before| && MovesFrom(kept, before, moves)
    ensures AsSlots(moves) == before
  {
    var n := |before|;
    forall j | 0 <= j < n
      ensures kept[j] == j
    {
      Spread(kept, 0, j);
      Spread(kept, j, n - 1);
    }
    assert forall j :: 0 <= j < n ==> Resolves(before[j], moves[j]);
  }

  /** Taking out the entry at `k` keeps the other positions, still in order. */
  lemma KeepsRemove<T>(kept: seq<nat>, from: seq<T>, to: seq<T>, k: nat)
    requires Keeps(kept, from, to) && k < |to|
    ensures Keeps(kept[..k] + kept[k + 1..], from, to[..k] + to[k + 1..])
  {
    var kept', to' := kept[..k] + kept[k + 1..], to[..k] + to[k + 1..];
    assert forall j :: 0 <= j < |kept'| ==> kept'[j] == kept[if j < k then j else j + 1];
    assert forall j :: 0 <= j < |to'| ==> to'[j] == to[if j < k then j else j + 1];
  }

  /** The `while` loop of generator.ts:197-200: `splice` out a random entry
      until at most `amount` are left. */
  method Trim(list: MoveList, amount: nat) returns (ghost kept: seq<nat>)
    modifies list
    ensures |list.slots| == Min(|old(list.slots)|, amount)
    ensures Keeps(kept, old(list.slots), list.slots)
  {
    ghost var original := list.slots;
    kept := seq(|original|, j => j);
    while |list.slots| > amount
      invariant Min(|original|, amount) <= |list.slots| <= |original|
      invariant Keeps(kept, original, list.slots)
      decreases |list.slots|
    {
      var k := RandomBelow(|list.slots|);
      KeepsRemove(kept, original, list.slots, k);
      list.slots := list.slots[..k] + list.slots[k + 1..];
      kept := kept[..k] + kept[k + 1..];
    }
  }

  /** `generateMoves([...choice], 1)[0]` (generator.ts:207): the nested call trims
      a copy of the alternatives down to one entry; its own `forEach` finds only
      strings and changes nothing. */
  method PickOne(choice: seq<string>) returns (m: string)
    requires choice != []
    ensures m in choice
  {
    var copy := new MoveList(AsSlots(choice));
    ghost var kept := Trim(copy, 1);
    m := copy.slots[0].name;
  }

  /** The `do`-`while` of generator.ts:206-210: draw from `choice` until the draw
      is not among the entries `present`. The source may draw forever; here at
      most `retries` draws are made, and `found` is false when none was fresh. */
  method DrawUnused(choice: seq<string>, present: seq<MoveSlot>, retries: nat) returns (found: bool, m: string)
    requires choice != []
    ensures found ==> m in choice && Move(m) !in present
    ensures (forall i :: 0 <= i < |choice| ==> Move(choice[i]) in present) ==> !found
  {
    var draws := retries;
    found, m := false, "";
    while !found && draws > 0
      invariant found ==> m in choice && Move(m) !in present
      decreases draws
    {
      m := PickOne(choice);
      draws := draws - 1;
      found := Move(m) !in present;
    }
  }

  /** The `forEach` of generator.ts:202-213. Each alternative array is resolved by
      drawing until the draw is not among the current entries; `retries` bounds
      the draws per entry, and `false` means an entry used them all up. */
  method ResolveAlternatives(list: MoveList, retries: nat) returns (ok: bool)
    requires SlotsWellFormed(list.slots)
    modifies list
    ensures SlotsWellFormed(list.slots)
    ensures |list.slots| == |old(list.slots)|
    ensures ok ==> Resolution(old(list.slots), list.slots)
  {
    ghost var before := list.slots;
    var index := 0;
    while index < |list.slots|
      invariant index <= |list.slots| == |before|
      invariant forall j :: 0 <= j < index ==> list.slots[j].Move? && Resolves(before[j], list.slots[j].name)
      invariant forall j :: index <= j < |before| ==> list.slots[j] == before[j]
      invariant forall j, k :: 0 <= j < index && 0 <= k < |before| && j != k && before[j].Alternatives? ==>
        list.slots[j] != list.slots[k]
      invariant SlotsWellFormed(list.slots)
    {
      if list.slots[index].Alternatives? {
        var choice := list.slots[index].options;
        var found, moveChoice := DrawUnused(choice, list.slots, retries);
        if !found {
          return false;
        }
        list.slots := list.slots[index := Move(moveChoice)];
      }
      index := index + 1;
    }
    ok := true;
  }

  /** `generateMoves(moves, amount)`: on success the array now holds exactly the
      returned moves, `min(|moves|, amount)` of them. Each comes, in order, from
      a kept original entry (the entry itself, or one of its alternatives), and
      each resolved alternative differs from every other returned move. */
  method GenerateMoves(list: MoveList, amount: nat, retries: nat) returns (r: Result<seq<string>>, ghost kept: seq<nat>)
    requires SlotsWellFormed(list.slots)
    modifies list
    ensures SlotsWellFormed(list.slots)
    ensures |list.slots| == Min(|old(list.slots)|, amount)
    ensures r.Err? ==> r.error == RetryLimit
    ensures r.Ok? ==> list.slots == AsSlots(r.value) && MovesFrom(kept, old(list.slots), r.value)
  {
    ghost var original := list.slots;
    kept := Trim(list, amount);
    ghost var trimmed := list.slots;
    var ok := ResolveAlternatives(list, retries);
    if !ok {
      return Err(RetryLimit), kept;
    }
    var names := Names(list.slots);
    assert list.slots == AsSlots(names);
    r := Ok(names);
  }
}
