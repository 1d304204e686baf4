# VGC random team generator, modelled in Dafny

This project models the team generator of `src/generator.ts`. The generator
builds a random six-Pokémon team for the VGC Series 8, 9 and 10 formats. Its
input is a catalog of set records. Each slot of the team gets a *requirement*:
a predicate over a record's roles and item, built from what the earlier picks
committed the team to (weather, trick room, weakness policy, dynamax,
restricted legendaries). Two clauses hold across the team:

- the Species Clause: each species key is drawn at most once. A record is
  drawn under a key its name starts with, so one record can be drawn under two
  keys: `Porygon2` under `Porygon` (the key of `Porygon-Z`) and again under
  `Porygon2`.
- the Item Clause: each item is used at most once.

The model has six modules:

- `Basics`: option and result types, `Distinct`, `StartsWith`, and the random
  index draw.
- `Catalog`: record and generated-set shapes, role tuples and species keys. A
  record's `moves` array is an object (`MoveList`) because `generateMoves`
  changes it in place.
- `Queries`: `findWeather` and `findPolicyTypes`.
- `Requirements`: the `Requirement` class. It is a datatype whose evaluator
  `Test` follows the closures' code, plus `testIn`, `countIn` and every static
  constructor.
- `Moves`: `generateMoves`, with its in-place `splice` loop, the overwrites of
  the array entries and the retry loop.
- `Selection`: `generateSet`, and `generatePokemon` as a method of the class
  `Draft`. `Draft` holds the shared `species` set and `usedItems` list.
- `Builder`: the slot requirements of `generate` branch for branch, the build of
  the team, the production shuffle and the final text.

Every `Math.floor(Math.random() * n)` is a nondeterministic index below `n`.
Every property holds whatever the draws are. The 1-in-4096 shiny draw is an
arbitrary boolean. `process.env.NODE_ENV === 'production'` is the parameter
`production`. The catalog is a parameter. Its records' `moves` arrays are
changed by each generation and stay changed, as in the source.

Where the code and its comments disagree, the model follows the code:

- The comment at generator.ts:243 says the weather requirement can be skipped
  for the offensive lead because the team is empty. In Series 8 and 10 the
  restricted lead is already on the team then, and it may have a weather role.
  The model follows the code: it asks nothing about the weather before the slot
  after the leads.
- `noAdditionalTR(sets)` forbids trick room users as soon as SOME set of the
  team is not a trick room setter, because it calls `noTRSetters().testIn(sets)`.
  It does not wait until the whole team excludes setters.
- `Requirements.NoAdditionalTRSemantics` states this.
- In the second slot, `dynamax().test(sets[0]) && format != Series10 ? offense() : dynamax()`
  always asks for a dynamax target in Series 10. The comment says the dynamax
  test is skipped there.
- Both the fifth and sixth slots test the same condition twice in a row.
  - The first of the two branches asks for another trick room setter when the
    team has a setter and no trick room user. Its comment speaks of adding a
    setter for a team that lacks one.
  - The second branch, meant to add a trick room user, is never taken.
  - `Builder.FifthSlotTrickRoomAndSupport` states this.

Series 8 and 10 build six or seven sets, and Series 9 builds five or six. The
reasons:

- The `switch` has no `break`.
- The fifth slot pushes nothing when the team needs a setter that is also a
  weakness policy proccer and no free record is one.

In production the shuffle takes six sets:

- with seven sets, one is dropped;
- with five, it takes `undefined`, and reading its `export` throws. The model
  returns `Err(UndefinedSet)` for that case.

## Model

| member | source | states |
|---|---|---|
| `Catalog.GroupKey` | src/generator.ts:220 | The species key is a prefix of the name. It is either the whole name or the name cut at a `-` that has at least one character after it. It holds no `-` except a trailing one. |
| `Catalog.SpeciesKeys` | src/generator.ts:220 | The initial species set holds exactly the keys of the catalog's records. |
| `Queries.WeatherRoleSpec` | src/generator.ts:574 | `roles.find(role[1] === 'weather')` is missing iff no role has subcategory `weather`. Otherwise it is the first such role. |
| `Queries.FindWeatherSpec` | src/generator.ts:572-580 | `FindWeather` (`findWeather`) is null when no set has a weather role. Otherwise it is `role[2]` of the first weather role of the first set that has one. |
| `Queries.FindWeatherStable` | src/generator.ts:572-580 | Once some set has a weather role, appending sets does not change `FindWeather`. |
| `Queries.AddPolicyTypesSpec` | src/generator.ts:586-590 | `AddPolicyTypes` (the `forEach` over one set's roles) keeps the values distinct. It adds exactly the details of the set's `('offense', 'policy')` roles. |
| `Queries.PolicyTypesFromSpec` | src/generator.ts:585-591 | `PolicyTypesFrom` (the loop over the sets) keeps the values distinct and collects the details of every set's policy roles. |
| `Queries.FindPolicyTypesSpec` | src/generator.ts:582-594 | `FindPolicyTypes` (`findPolicyTypes`) returns pairwise-distinct values. A value is among them iff some set has the role `('offense', 'policy', value)`. `undefined` is included. |
| `Requirements.MatchesFromFits` | src/generator.ts:111-123 | `MatchesFrom` (the inner `for` loop) accepts a tuple iff every remaining pattern position matches. |
| `Requirements.SomeRoleMatchesFits` | src/generator.ts:108-126 | `SomeRoleMatches` (`findIndex(...) !== -1`) holds iff some role tuple fits the pattern. |
| `Requirements.RoleSemantics` | src/generator.ts:105-128 | `Test` of `Role(p)` (`role(p...)`) holds iff some role tuple matches position by position. `null` is a wildcard, an array means membership and a string means equality. Positions past the pattern are free. |
| `Requirements.ExactRoleSemantics` | src/generator.ts:105-128 | `role(c, s)` holds iff the record has a role `(c, s, ...)`. |
| `Requirements.AllPassSemantics` | src/generator.ts:132-137 | `AllPass` (the `findIndex` of `and`) finds no failing argument iff all arguments pass. |
| `Requirements.AnyPassesSemantics` | src/generator.ts:138-143 | `AnyPasses` (the `findIndex` of `or`) finds a passing argument iff one exists. |
| `Requirements.AndSemantics` | src/generator.ts:132-137 | `Test` of `And(rs)` (`and(...)`) holds iff every argument holds. `and()` always holds. |
| `Requirements.OrSemantics` | src/generator.ts:138-143 | `Test` of `Or(rs)` (`or(...)`) holds iff some argument holds. `or()` never holds. |
| `Requirements.NotNoneSemantics` | src/generator.ts:129-146 | `Test` of `Not(r)` negates `r`, and `Test` of `None` always holds. |
| `Requirements.SomeUnusedSemantics` | src/generator.ts:101 | `SomeUnused` (`findIndex(item => !items.includes(item)) !== -1`) holds iff some item is unused. |
| `Requirements.ItemClauseSemantics` | src/generator.ts:98-104 | `Test` of `ItemClause(used)` (`itemClause(used)`) passes a fixed item iff it is not in `used`. It passes an item array iff some alternative is not in `used`. |
| `Requirements.TestIn` | src/generator.ts:38-44 | `testIn` is true iff some element passes. |
| `Requirements.CountIn` | src/generator.ts:45-53 | `countIn` is at most the length. It is zero iff none pass, and equals the length iff all pass. |
| `Requirements.CountInAppend` | src/generator.ts:45-53 | One more element adds one to `countIn` exactly when it passes, so `countIn` counts the passing elements. |
| `Requirements.WeatherSemantics` | src/generator.ts:67-74 | `Weather(w)` (`weather(w)`) with `w` missing or empty always passes. Otherwise it accepts a record iff it has a role `(_, 'weather', w)` or no role with subcategory `weather`. |
| `Requirements.ExclusionSemantics` | src/generator.ts:75-86 | `NoTRSetters`, `NoTRUsers`, `NoWPProccers` and `NoWPUsers` each reject exactly the records with the named role. |
| `Requirements.NoAdditionalTRSemantics` | src/generator.ts:87-91 | `NoAdditionalTR(sets)` accepts a record iff every set of the team is a trick room setter or the record is no trick room user. |
| `Requirements.NoAdditionalWeatherSemantics` | src/generator.ts:92-96 | With a weather on the team, `NoAdditionalWeather` behaves as `Weather(w)`. Without one, it rejects exactly the records with a role `('offense', 'weather')`. |
| `Moves.Trim` | src/generator.ts:197-200 | The `splice` loop leaves `min(length, amount)` entries. They are original entries, kept in their order. |
| `Moves.PickOne` | src/generator.ts:207 | `generateMoves([...choice], 1)[0]` is one of the alternatives. |
| `Moves.DrawUnused` | src/generator.ts:206-210 | A draw the retry loop accepts is an alternative not among the current entries. No draw is accepted when every alternative is present. |
| `Moves.ResolveAlternatives` | src/generator.ts:202-213 | The `forEach` keeps the length. It turns every entry into a move that the entry allowed. Each resolved alternative differs from every other final entry. |
| `Moves.GenerateMoves` | src/generator.ts:195-216 | The record's own array ends up holding exactly the returned moves, `min(length, amount)` of them. Each comes, in order, from a kept original entry. Resolved alternatives are distinct from every other move. |
| `Moves.ResolvedStays` | src/generator.ts:195-216 | Run again on an array it already went through, `generateMoves` hands back the same moves and leaves the array as it was. |
| `Selection.Unused` | src/generator.ts:158 | The filter keeps exactly the alternatives not in `usedItems`. |
| `Selection.SetsFor` | src/generator.ts:546-550 | A record is among the species sets iff its name starts with the drawn key and it passes the requirement. |
| `Selection.AvailableSets` | src/generator.ts:299-301 | A record is available iff its species key is still in `species`. |
| `Selection.ExportShape` | src/generator.ts:182-190 | `ExportLines` (the export template) has eight lines: name and item, ability, `Level: 50`, spread and four moves. A missing move shows as `undefined`. A shiny draw adds exactly the `Shiny: Yes` line after the level. |
| `Selection.Choose` | src/generator.ts:166-178 | An ability or spread is the fixed value or one of the alternatives. |
| `Selection.GenerateSet` | src/generator.ts:149-193 | Under the Item Clause, the generated set keeps name and roles and takes item, ability and spread from what the record allows. The item is not already used. The moves are those left in the record's own array. |
| `Selection.Draft.constructor` | src/generator.ts:220-221 | The draft starts with every species key and no used item. |
| `Selection.Draft.Take` | src/generator.ts:561-566 | It removes the drawn key from `species`. On success it appends exactly the new item, which was unused. |
| `Selection.Draft.GeneratePokemon` | src/generator.ts:522-570 | On success the set comes from a record whose name starts with a drawn key and that passes `and(itemClause(usedItems), requirements)`. Exactly that key leaves `species`, and exactly that item joins `usedItems`. The record's `moves` array holds the returned moves and every other `moves` array of the catalog is unchanged. On "No species found" nothing changes, and no remaining key has an admissible record, unless `""` is a key. |
| `Builder.LeadSlotsSemantics` | src/generator.ts:223-252 | `RestrictedLead` asks for a restricted set. `OffensiveLead` asks for an offensive set that is not restricted. |
| `Builder.SecondSlotSemantics` | src/generator.ts:254-279 | `SecondSlot` follows the dynamax rule, keeps the team's weather, and excludes restricted sets and weakness policy proccers. |
| `Builder.RandomSlotSemantics` | src/generator.ts:281-294 | `RandomSlot` (third and fourth slots) keeps the weather and excludes restricted sets and weakness policy proccers. |
| `Builder.FifthSlotSemantics` | src/generator.ts:296-420 | Every requirement `FifthSlot` can ask for keeps the weather and excludes restricted sets. |
| `Builder.FifthSlotPolicy` | src/generator.ts:302-347 | With a policy user on the team, `FifthSlot` asks for a proccer of one of the team's policy types. It is a trick room setter exactly when the team has a user and no setter. It pushes nothing iff that is the case and no available record qualifies. |
| `Builder.FifthSlotTrickRoomAndSupport` | src/generator.ts:348-396 | Without a policy user on the team, `FifthSlot` admits no proccer. A setter without a user brings a second setter. Fewer than two supports bring a support. |
| `Builder.SixthSlotSemantics` | src/generator.ts:422-504 | Every requirement `SixthSlot` can ask for keeps the weather and excludes restricted sets, weakness policy proccers and users. |
| `Builder.SixthSlotWeather` | src/generator.ts:425-504 | In `SixthSlot`, a team weather without its setter brings a `('speed', 'weather', w)` set. A team with no weather and no trick room gap falls to the last branch and gets no `('offense', 'weather')` set. |
| `Builder.FifthSlotFallback` | src/generator.ts:397-418 | The last branch of `FifthSlot` admits no trick room setter, no weakness policy user or proccer, and no trick room user once some set of the team is not a setter. |
| `Builder.SixthSlotTrickRoom` | src/generator.ts:444-504 | Without a weather gap, `SixthSlot` gives a team with a setter and no trick room user another setter: the branch meant to add a user is never taken. Without that gap it admits no setter, and no user once some set of the team is not a setter. |
| `Builder.SlotAsksFact` | src/generator.ts:223-504 | A set that passes what its slot asks for keeps that slot's promise (restricted, weather and dynamax). |
| `Builder.AskedExtend` | src/generator.ts:255-504 | A pick that passed the requirement of the next slot keeps the record of what every slot asked for. |
| `Builder.SlotProccer` | src/generator.ts:254-504 | After the leads, a set that passed its slot's requirement is a weakness policy proccer only in the fifth slot, and only with a policy user on the team. |
| `Builder.TeamProccers` | src/generator.ts:270-272 | Across the whole team, from the slot after the leads on, a weakness policy proccer appears only in the fifth slot and only when a policy user is already on the team. |
| `Builder.MovesLeftExtend` | src/generator.ts:196 | After one more pick, each picked record's `moves` array holds the moves of the set drawn from it, and every array no pick drew from is as it was. Every pick, the new one included, resolved what its array held when it was drawn. |
| `Builder.DrewFromExtend` | src/generator.ts:180 | A pick that drew from what its record's array held keeps the record of what every pick drew from: the latest earlier set drawn from that array, or its contents at the start. |
| `Builder.DrawnFromStart` | src/generator.ts:180 | A set drawn from a `moves` array that no earlier set drew from resolved that array's contents at the start of the build. A set drawn from an array that an earlier set drew from resolved that set's moves. |
| `Builder.RedrawnSameMoves` | src/generator.ts:196 | Two sets drawn from records that share one `moves` array have the same moves. |
| `Builder.TeamShape` | src/generator.ts:223-504 | In Series 8 and 10 the first set is restricted and no other is. In Series 9 none is. The sets after the leads agree with the weather before them, and the second slot follows the dynamax rule. |
| `Builder.TeamWeather` | src/generator.ts:255-504 | After the leads, every set picked once a weather is on the team agrees with the finished team's weather. |
| `Builder.Push` | src/generator.ts:522-570 | One `sets.push(generatePokemon(...))` appends one set. It keeps the Species Clause, the Item Clause, every slot's promise, the requirement each pick passed, and the account of the catalog's `moves` arrays. The new set's moves come from its record's array as it was before the call. |
| `Builder.PushProgress` | src/generator.ts:522-570 | After a successful `generatePokemon` for the next slot's requirement, the team with the new set still keeps both clauses and every slot's promise. Each pick passed what its slot asked for. The account of the `moves` arrays still holds: the new set resolved its record's array as it was before the call. |
| `Builder.BuildLeads` | src/generator.ts:223-252 | The `switch` pushes `Lead` sets: a restricted lead then an offensive one, or only the offensive one in Series 9. Each passed its slot's requirement, the Species and Item Clauses hold, and each lead's moves come from its record's array as it was at the call. |
| `Builder.BuildFirst` | src/generator.ts:254-279 | After the leads, the second slot's set is pushed, for `Lead + 1` sets, each with the same guarantees, its moves included. |
| `Builder.BuildLast` | src/generator.ts:296-504 | The fifth and sixth slots push one or two sets, each passing its slot's requirement, the fifth one built from the records still available. Their moves come from their records' arrays as the earlier picks left them. |
| `Builder.Build` | src/generator.ts:218-504 | On success the team keeps both clauses, each set came from a record that passed its slot's requirement, and each set's moves come from its record's array as it was at the call or as an earlier set left it. It has six or seven sets in Series 8 and 10, and five or six in Series 9. |
| `Builder.Team` | src/generator.ts:218-504 | On a fresh draft, with every species key free and no item used, the team before the shuffle keeps both clauses over the catalog's species keys. Every set passed its slot's requirement. The `moves` arrays are accounted for against their contents at the call: each set resolved its record's array as it was then, or as the last earlier set drawn from it left it. |
| `Builder.Shuffle` | src/generator.ts:506-517 | The shuffle succeeds iff there are at least six sets. The result is six of them, and all of them when there are six. |
| `Builder.JoinAppend` | src/generator.ts:519 | `Join` (`join(sep)`) of one more part is the earlier join, the separator and the part. |
| `Builder.SetExport` | src/generator.ts:182-190 | A set whose export is the template filled with its own fields has the lines of `ExportOf`: its name and item, its ability, `Level: 50`, the shiny line only on a ninth line, its spread and its four move lines. |
| `Builder.TeamExports` | src/generator.ts:180-190 | In a fairly drawn team, every set's export starts with its record's name and the item it drew, then its ability, the level, the optional shiny line, its spread and its four moves. |
| `Builder.ShownExports` | src/generator.ts:506-519 | Every set the shuffle takes from a fairly drawn team exports the template filled with its own fields. |
| `Builder.Generate` | src/generator.ts:218-520 | The text is `TeamText` of the shown sets: their exports joined by blank lines, the whole team in development and six of its sets in production. Each shown set's export is the template filled with its own name, item, ability, spread and moves (`ExportOf`). The team keeps both clauses over the catalog's species keys. Each set came from a record that passed the requirement its slot asked for. Each picked record's `moves` array now holds that set's moves, and no other array changed. An undefined set arises only in production with fewer than six sets. Once a team is built, the call succeeds exactly when it is not in production or the team has six sets, and every other error leaves no team. |

## Left out

- Loading the catalog with `fs` and `js-yaml` is not modelled. The catalog is a
  parameter.
- Alternative arrays are taken to be non-empty. The catalog is taken to be
  validated data, so an empty ability or spread array (whose draw reads
  `array[0]`, that is `undefined`) or an empty `do`-`while` draw is outside the
  model.
- `stripIndents` and `spread.trim()` are library calls. The export is a list of
  lines, and the spread is kept as written.
- The float comparison behind the shiny line is an arbitrary boolean.
- The `NODE_ENV` lookup is the parameter `production`.
- `Moves.DrawUnused`: the retry loop of `generateMoves` may draw forever when
  every alternative is already present. The model makes at most `retries` draws
  per entry and then fails with `RetryLimit`. `RetryLimit` stands for the loop
  needing more than `retries` draws. That happens when no fresh alternative
  exists, but also when one exists and every draw missed it, and always when
  `retries` is 0 and an alternative array is present.
- Nested arrays inside a move's alternatives are not modelled. The record type
  declares them as strings, and the recursive call then only trims.
- `Catalog.GroupKey`: line terminators, which the regular expression's `.` does
  not match, are treated like any other character.
- `Selection.GenerateSet`: the generated set's `moves` is a value equal to the
  record's final array. The source shares the array itself. After resolution
  the array holds only strings of at most four entries, so a later
  `generateMoves` on it changes nothing.
- `Selection.GenerateSet` requires the Item Clause of the record. Its only
  caller, `generatePokemon`, draws only records that pass it, so the
  `undefined` item of an exhausted item array (`items[0]` of an empty filter
  result) never arises.
- Where the exception would come from is not told apart. A JavaScript
  exception for "No species found" and the `TypeError` of an `undefined` set
  are both `Err` values.
- `src/main.ts` and `src/log.ts` (DOM, click handlers, crash reports) are not
  part of this model.
