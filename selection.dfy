/** Picking one team member: `generateSet` (src/generator.ts:149-193) and
    `generatePokemon` (src/generator.ts:522-570). */
module Selection {
  import opened Basics
  import opened Catalog
  import opened Requirements
  import opened Moves

  /** `options.filter(item => !used.includes(item))` (generator.ts:158). */
  function Unused(options: seq<string>, used: seq<string>): (r: seq<string>)
    ensures forall v :: v in r <==> v in options && v !in used
    ensures |r| <= |options|
  {
    if options == [] then []
    else
      assert options == [options[0]] + options[1..];
      (if options[0] in used then [] else [options[0]]) + Unused(options[1..], used)
  }

  /** `setData.filter(set => set.pokemon.startsWith(name) && req.test(set))`
      (generator.ts:546-550). */
  function SetsFor(catalog: seq<SetData>, name: string, req: Requirement): (r: seq<SetData>)
    ensures forall i :: 0 <= i < |r| ==> r[i] in catalog && StartsWith(r[i].pokemon, name) && Test(req, SubjectOf(r[i]))
    ensures forall i :: 0 <= i < |catalog| && StartsWith(catalog[i].pokemon, name) && Test(req, SubjectOf(catalog[i])) ==>
      catalog[i] in r
    ensures |r| <= |catalog|
  {
    if catalog == [] then []
    else
      assert catalog == [catalog[0]] + catalog[1..];
      (if StartsWith(catalog[0].pokemon, name) && Test(req, SubjectOf(catalog[0])) then [catalog[0]] else [])
        + SetsFor(catalog[1..], name, req)
  }

  /** The records whose species key is still available (generator.ts:299-301). */
  function AvailableSets(catalog: seq<SetData>, species: set<string>): (r: seq<SetData>)
    ensures forall i :: 0 <= i < |r| ==> r[i] in catalog && GroupKey(r[i].pokemon) in species
    ensures forall i :: 0 <= i < |catalog| && GroupKey(catalog[i].pokemon) in species ==> catalog[i] in r
    ensures |r| <= |catalog|
  {
    if catalog == [] then []
    else
      assert catalog == [catalog[0]] + catalog[1..];
      (if GroupKey(catalog[0].pokemon) in species then [catalog[0]] else []) + AvailableSets(catalog[1..], species)
  }

  /** A template slot `${moves[i]}`: `undefined` past the end of the array. */
  function MoveText(moves: seq<string>, i: nat): string {
    if i < |moves| then moves[i] else "undefined"
  }

  /** The export text of generator.ts:182-190 as lines; the shiny line is there
      only when the 1-in-4096 draw succeeds. */
  function ExportLines(pokemon: string, item: string, ability: string, spread: string, moves: seq<string>, shiny: bool): seq<string> {
    [pokemon + " @ " + item, "Ability: " + ability, "Level: 50"]
      + (if shiny then ["Shiny: Yes"] else [])
      + [spread]
      + ["- " + MoveText(moves, 0), "- " + MoveText(moves, 1), "- " + MoveText(moves, 2), "- " + MoveText(moves, 3)]
  }

  /** Set `g`'s export text is the template filled with its own name, item,
      ability, spread and moves, with or without the shiny line. */
  ghost predicate Exported(g: GeneratedSet) {
    exists shiny: bool :: g.exportText == ExportLines(g.pokemon, g.item, g.ability, g.spread, g.moves, shiny)
  }

  /** The export is eight lines, nine with the shiny line; the shiny line is the
      one thing a shiny draw adds. The last four lines list the first four moves,
      with `undefined` for each one missing. */
  lemma ExportShape(pokemon: string, item: string, ability: string, spread: string, moves: seq<string>, shiny: bool)
    ensures var lines := ExportLines(pokemon, item, ability, spread, moves, shiny);
      |lines| == (if shiny then 9 else 8) &&
      lines[0] == pokemon + " @ " + item && lines[1] == "Ability: " + ability && lines[2] == "Level: 50" &&
      lines[|lines| - 5] == spread &&
      forall i :: 0 <= i < 4 ==> lines[|lines| - 4 + i] == "- " + (if i < |moves| then moves[i] else "undefined")
    ensures var plain := ExportLines(pokemon, item, ability, spread, moves, false);
      ExportLines(pokemon, item, ability, spread, moves, true) == plain[..3] + ["Shiny: Yes"] + plain[3..]
  {
    var plain := ExportLines(pokemon, item, ability, spread, moves, false);
    assert plain[3..] == [spread] + ["- " + MoveText(moves, 0), "- " + MoveText(moves, 1), "- " + MoveText(moves, 2), "- " + MoveText(moves, 3)];
  }

  /** `Array.isArray(c) ? c[random index] : c` (generator.ts:166-178). */
  method Choose(c: Choice) returns (v: string)
    requires c.Many? ==> c.options != []
    ensures Allows(c, v)
  {
    match c
    case One(value) =>
      v := value;
    case Many(options) =>
      var k := RandomBelow(|options|);
      v := options[k];
  }

  /** `generateSet(set, usedItems)`. The item is drawn among the alternatives not
      yet used, which the Item Clause guarantees is possible; the record's moves
      array is trimmed and resolved in place and the generated set holds its
      final contents. */
  method GenerateSet(record: SetData, usedItems: seq<string>, retries: nat) returns (r: Result<GeneratedSet>, ghost kept: seq<nat>)
    requires ChoicesWellFormed(record) && SlotsWellFormed(record.moves.slots)
    requires Test(ItemClause(usedItems), SubjectOf(record))
    modifies record.moves
    ensures SlotsWellFormed(record.moves.slots)
    ensures |record.moves.slots| == Min(|old(record.moves.slots)|, 4)
    ensures r.Err? ==> r.error == RetryLimit
    ensures r.Ok? ==> FromRecord(r.value, record) && r.value.item !in usedItems
    ensures r.Ok? ==> record.moves.slots == AsSlots(r.value.moves) && MovesFrom(kept, old(record.moves.slots), r.value.moves)
    ensures r.Ok? ==>
      exists shiny: bool :: r.value.exportText == ExportLines(record.pokemon, r.value.item, r.value.ability, r.value.spread, r.value.moves, shiny)
  {
    ItemClauseSemantics(usedItems, SubjectOf(record));
    var item: string;
    match record.item {
      case One(value) =>
        item := value;
      case Many(options) =>
        var i :| 0 <= i < |options| && options[i] !in usedItems;
        var items := Unused(options, usedItems);
        assert options[i] in items;
        var k := RandomBelow(|items|);
        item := items[k];
    }
    var ability := Choose(record.ability);
    var spread := Choose(record.spread);
    var moves;
    moves, kept := GenerateMoves(record.moves, 4, retries);
    if moves.Err? {
      return Err(moves.error), kept;
    }
    var shiny: bool :| true;
    var lines := ExportLines(record.pokemon, item, ability, spread, moves.value, shiny);
    r := Ok(GeneratedSet(record.pokemon, item, ability, spread, moves.value, record.roles, lines));
  }

  /** What a successful `generatePokemon` drew: the species key, the position of
      the record in the catalog, the record's moves before the call and the
      positions of the moves it kept. */
  datatype Pick = Pick(key: string, index: nat, before: seq<MoveSlot>, kept: seq<nat>)

  /** The two collections `generatePokemon` updates on behalf of `generate`:
      the remaining species keys and the items used so far. */
  class Draft {
    var species: set<string>
    var usedItems: seq<string>

    /** `new Set(setData.map(...))` and `[]` (generator.ts:220-221). */
    constructor (catalog: seq<SetData>)
      ensures species == SpeciesKeys(catalog) && usedItems == []
    {
      species := SpeciesKeys(catalog);
      usedItems := [];
    }

    /** generator.ts:561-566: take `record`, catalog entry `index`, drawn under key `name`. Its key
        leaves `species` (Species Clause) and the generated set's item joins
        `usedItems` (Item Clause). */
    method Take(name: string, record: SetData, catalog: seq<SetData>, ghost index: nat, retries: nat)
      returns (r: Result<GeneratedSet>, ghost pick: Pick)
      requires CatalogWellFormed(catalog) && index < |catalog| && catalog[index] == record
      requires Test(ItemClause(usedItems), SubjectOf(record))
      modifies this, record.moves
      ensures CatalogWellFormed(catalog)
      ensures species == old(species) - {name}
      ensures r.Err? ==> r.error == RetryLimit
      ensures r.Ok? ==> pick.key == name && pick.index == index && FromRecord(r.value, catalog[index])
      ensures r.Ok? ==> usedItems == old(usedItems) + [r.value.item] && r.value.item !in old(usedItems)
      ensures r.Ok? ==>
        pick.before == old(catalog[index].moves.slots) &&
        catalog[index].moves.slots == AsSlots(r.value.moves) &&
        |r.value.moves| == Min(|pick.before|, 4) && MovesFrom(pick.kept, pick.before, r.value.moves)
      ensures r.Ok? ==> Exported(r.value)
    {
      ghost var before := record.moves.slots;
      species := species - {name};
      ghost var kept;
      r, kept := GenerateSet(record, usedItems, retries);
      pick := Pick(name, index, before, kept);
      if r.Ok? {
        usedItems := usedItems + [r.value.item];
      }
    }

    /** `generatePokemon(req, species, usedItems)`. Rejection sampling over a private
        copy of the species keys: a key without an admissible record is dropped
        from the copy only; the first key with one is removed from `species`, and
        the generated set's item is appended to `usedItems`. When the copy runs
        out, or the drawn key is the empty string, it fails with "No species
        found" and changes nothing. */
    method GeneratePokemon(req: Requirement, catalog: seq<SetData>, retries: nat) returns (r: Result<GeneratedSet>, ghost pick: Pick)
      requires CatalogWellFormed(catalog)
      modifies this, MoveLists(catalog)
      ensures CatalogWellFormed(catalog)
      ensures r.Ok? ==>
        pick.index < |catalog| && pick.key != "" && pick.key in old(species) &&
        StartsWith(catalog[pick.index].pokemon, pick.key) &&
        Test(ItemClause(old(usedItems)), SubjectOf(catalog[pick.index])) &&
        Test(req, SubjectOf(catalog[pick.index])) &&
        FromRecord(r.value, catalog[pick.index])
      ensures r.Ok? ==> species == old(species) - {pick.key} && usedItems == old(usedItems) + [r.value.item]
      ensures r.Ok? ==> r.value.item !in old(usedItems)
      ensures r.Ok? ==>
        pick.before == old(catalog[pick.index].moves.slots) &&
        catalog[pick.index].moves.slots == AsSlots(r.value.moves) &&
        |r.value.moves| == Min(|pick.before|, 4) && MovesFrom(pick.kept, pick.before, r.value.moves)
      ensures r.Ok? ==> forall m :: m in MoveLists(catalog) && m != catalog[pick.index].moves ==> m.slots == old(m.slots)
      ensures r.Ok? ==> Exported(r.value)
      ensures r.Err? ==> r.error == NoSpeciesFound || r.error == RetryLimit
      ensures r.Err? && r.error == NoSpeciesFound ==>
        species == old(species) && usedItems == old(usedItems) && unchanged(MoveLists(catalog))
      ensures r.Err? && r.error == NoSpeciesFound ==>
        "" in species ||
        forall k, i :: k in species && 0 <= i < |catalog| && StartsWith(catalog[i].pokemon, k) ==>
          !Test(And([ItemClause(usedItems), req]), SubjectOf(catalog[i]))
    {
      var requirements := And([ItemClause(usedItems), req]);
      var available := species;
      while true
        invariant available <= species == old(species) && usedItems == old(usedItems)
        invariant unchanged(MoveLists(catalog))
        invariant "" in species ==> "" in available
        invariant forall k, i :: k in species && k !in available && 0 <= i < |catalog| && StartsWith(catalog[i].pokemon, k) ==>
          !Test(requirements, SubjectOf(catalog[i]))
        decreases available
      {
        if available == {} {
          return Err(NoSpeciesFound), Pick("", 0, [], []);
        }
        var name :| name in available;
        if name == "" {
          return Err(NoSpeciesFound), Pick("", 0, [], []);
        }
        var speciesSets := SetsFor(catalog, name, requirements);
        if speciesSets == [] {
          assert forall i :: 0 <= i < |catalog| && StartsWith(catalog[i].pokemon, name) ==>
            !Test(requirements, SubjectOf(catalog[i]));
          available := available - {name};
        } else {
          var k := RandomBelow(|speciesSets|);
          var record := speciesSets[k];
          ghost var index :| 0 <= index < |catalog| && catalog[index] == record;
          assert Test(requirements, SubjectOf(record));
          AndSemantics(requirements.all, SubjectOf(record));
          assert requirements.all[0] == ItemClause(usedItems) && requirements.all[1] == req;
          r, pick := Take(name, record, catalog, index, retries);
          return;
        }
      }
    }
  }
}
