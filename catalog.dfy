/** The shape of the catalog records (`SetData`) and of the sets generated
    from them (`GeneratedSetData`), src/generator.ts:16-33. */
module Catalog {
  import opened Basics

  /** A role tuple such as `['offense', 'weather', 'sun']`; it may have any length. */
  type RoleTuple = seq<string>

  /** A field that is either one string or an array of alternatives. */
  datatype Choice = One(value: string) | Many(options: seq<string>)

  /** One entry of a record's `moves` array: a move, or an array of alternatives. */
  datatype MoveSlot = Move(name: string) | Alternatives(options: seq<string>)

  /** The mutable `moves` array of a catalog record. `generateMoves` shrinks and
      overwrites the very array the record holds, so it is an object here. */
  class MoveList {
    var slots: seq<MoveSlot>

    constructor (slots: seq<MoveSlot>)
      ensures this.slots == slots
    {
      this.slots := slots;
    }
  }

  /** A catalog record. Everything but the contents of `moves` is fixed. */
  datatype SetData = SetData(
    pokemon: string,
    item: Choice,
    ability: Choice,
    spread: Choice,
    moves: MoveList,
    roles: seq<RoleTuple>)

  /** A set with every alternative resolved; `exportText` is the export text (`export`), as lines. */
  datatype GeneratedSet = GeneratedSet(
    pokemon: string,
    item: string,
    ability: string,
    spread: string,
    moves: seq<string>,
    roles: seq<RoleTuple>,
    exportText: seq<string>)

  /** What a requirement looks at: the item field and the roles. A requirement
      is evaluated both on catalog records and on generated sets. */
  datatype Subject = Subject(item: Choice, roles: seq<RoleTuple>)

  function SubjectOf(s: SetData): Subject {
    Subject(s.item, s.roles)
  }

  function SubjectOfPick(g: GeneratedSet): Subject {
    Subject(One(g.item), g.roles)
  }

  function Subjects(sets: seq<GeneratedSet>): (r: seq<Subject>)
    ensures |r| == |sets| && forall i :: 0 <= i < |sets| ==> r[i] == SubjectOfPick(sets[i])
  {
    seq(|sets|, i requires 0 <= i < |sets| => SubjectOfPick(sets[i]))
  }

  /** `Subjects` maps over the team, so it distributes over concatenation. */
  lemma SubjectsAppend(a: seq<GeneratedSet>, b: seq<GeneratedSet>)
    ensures Subjects(a + b) == Subjects(a) + Subjects(b)
  {
    assert forall i :: 0 <= i < |b| ==> (a + b)[|a| + i] == b[i];
  }

  function RecordSubjects(records: seq<SetData>): (r: seq<Subject>)
    ensures |r| == |records| && forall i :: 0 <= i < |records| ==> r[i] == SubjectOf(records[i])
  {
    seq(|records|, i requires 0 <= i < |records| => SubjectOf(records[i]))
  }

  /** The `item` of every set, in order. */
  function Items(sets: seq<GeneratedSet>): (r: seq<string>)
    ensures |r| == |sets| && forall i :: 0 <= i < |sets| ==> r[i] == sets[i].item
  {
    seq(|sets|, i requires 0 <= i < |sets| => sets[i].item)
  }

  /** One more set adds its item at the end of `Items`, after any items `used`
      before the team. */
  lemma ItemsAppend(used: seq<string>, sets: seq<GeneratedSet>, g: GeneratedSet)
    ensures Items(sets + [g]) == Items(sets) + [g.item]
    ensures used + Items(sets + [g]) == used + Items(sets) + [g.item]
  {
    assert (sets + [g])[|sets|] == g;
    assert Items(sets + [g]) == Items(sets) + [g.item];
  }

  /** Entry `i` of a role tuple, `undefined` past its end. */
  function At(tuple: RoleTuple, i: nat): Option<string> {
    if i < |tuple| then Some(tuple[i]) else Undefined
  }

  /** `role[1] === 'weather'`. */
  predicate IsWeatherRole(tuple: RoleTuple) {
    At(tuple, 1) == Some("weather")
  }

  /** `role[0] === 'offense' && role[1] === 'policy'`. */
  predicate IsPolicyRole(tuple: RoleTuple) {
    At(tuple, 0) == Some("offense") && At(tuple, 1) == Some("policy")
  }

  /** The species key `pokemon.replace(/-.+$/, '')` (generator.ts:220): the name is
      cut at its first `-` when at least one character follows that `-`. */
  function GroupKey(pokemon: string): (key: string)
    ensures StartsWith(pokemon, key)
    ensures key == pokemon || (|key| + 1 < |pokemon| && pokemon[|key|] == '-')
    ensures forall i :: 0 <= i < |key| ==> key[i] != '-' || i == |pokemon| - 1
  {
    if pokemon == [] then pokemon
    else if pokemon[0] == '-' then (if |pokemon| > 1 then "" else pokemon)
    else [pokemon[0]] + GroupKey(pokemon[1..])
  }

  /** The species keys of a catalog, `new Set(setData.map(...))` (generator.ts:220). */
  function SpeciesKeys(catalog: seq<SetData>): (keys: set<string>)
    ensures forall s :: s in catalog ==> GroupKey(s.pokemon) in keys
    ensures forall k :: k in keys ==> exists s :: s in catalog && GroupKey(s.pokemon) == k
  {
    set s | s in catalog :: GroupKey(s.pokemon)
  }

  /** The `moves` arrays of all catalog records: the only catalog state that changes. */
  function MoveLists(catalog: seq<SetData>): set<MoveList> {
    set s | s in catalog :: s.moves
  }

  /** `r` may be what `c` resolves to. */
  predicate Allows(c: Choice, r: string) {
    match c
    case One(v) => r == v
    case Many(options) => r in options
  }

  /** No alternative array of the record's fixed fields is empty. */
  predicate ChoicesWellFormed(s: SetData) {
    (s.item.Many? ==> s.item.options != []) &&
    (s.ability.Many? ==> s.ability.options != []) &&
    (s.spread.Many? ==> s.spread.options != [])
  }

  /** No alternative move array is empty. */
  predicate SlotsWellFormed(slots: seq<MoveSlot>) {
    forall j :: 0 <= j < |slots| ==> slots[j].Alternatives? ==> slots[j].options != []
  }

  /** The catalog holds no empty alternative array: the data file is taken to be
      validated. */
  ghost predicate CatalogWellFormed(catalog: seq<SetData>)
    reads MoveLists(catalog)
  {
    forall s :: s in catalog ==> ChoicesWellFormed(s) && SlotsWellFormed(s.moves.slots)
  }

  /** `g` was generated from record `s`: same name and roles, and item, ability
      and spread taken from what the record allows. */
  ghost predicate FromRecord(g: GeneratedSet, s: SetData) {
    g.pokemon == s.pokemon && g.roles == s.roles &&
    Allows(s.item, g.item) && Allows(s.ability, g.ability) && Allows(s.spread, g.spread)
  }
}
