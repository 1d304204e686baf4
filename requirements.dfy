/** The `Requirement` class of src/generator.ts:35-147: a closed vocabulary of
    predicates over a record, written as a datatype with an evaluator `Test`. */
module Requirements {
  import opened Basics
  import opened Catalog
  import opened Queries

  /** One position of a `role(...)` pattern: `null` (wildcard), an array
      (membership) or a string (equality). Arrays come from `findPolicyTypes`,
      which can hold `undefined`. */
  datatype Field = Any | OneOf(options: seq<Option<string>>) | Exactly(value: string)

  datatype Requirement =
    | Role(pattern: seq<Field>)         // role(...)
    | ItemClause(used: seq<string>)     // itemClause(items)
    | Not(inner: Requirement)           // not(r)
    | And(all: seq<Requirement>)        // and(...rs)
    | Or(any: seq<Requirement>)         // or(...rs)
    | None                              // none()

  // ---------------------------------------------------------------------------
  // Evaluation, following the closures' code

  predicate FieldMatches(f: Field, v: Option<string>) {
    match f
    case Any => true
    case OneOf(options) => v in options
    case Exactly(value) => v == Some(value)
  }

  /** The `for` loop of generator.ts:111-123 from position `i` on: it stops with
      `allow = false` at the first position that does not match. */
  predicate MatchesFrom(pattern: seq<Field>, tuple: RoleTuple, i: nat)
    decreases |pattern| - i
  {
    i >= |pattern| || (FieldMatches(pattern[i], At(tuple, i)) && MatchesFrom(pattern, tuple, i + 1))
  }

  /** `roles.findIndex(...) !== -1` of generator.ts:108-126. */
  predicate SomeRoleMatches(pattern: seq<Field>, roles: seq<RoleTuple>) {
    roles != [] && (MatchesFrom(pattern, roles[0], 0) || SomeRoleMatches(pattern, roles[1..]))
  }

  /** `items.findIndex(item => !used.includes(item)) !== -1` of generator.ts:101. */
  predicate SomeUnused(items: seq<string>, used: seq<string>) {
    items != [] && (items[0] !in used || SomeUnused(items[1..], used))
  }

  /** `requirement.test(set)`. */
  predicate Test(r: Requirement, x: Subject)
    decreases r, 1
  {
    match r
    case Role(pattern) => SomeRoleMatches(pattern, x.roles)
    case ItemClause(used) =>
      (match x.item
       case Many(options) => SomeUnused(options, used)
       case One(v) => v !in used)
    case Not(inner) => !Test(inner, x)
    case And(all) => AllPass(all, x)
    case Or(any) => AnyPasses(any, x)
    case None => true
  }

  /** `requirements.findIndex(r => !r.test(set)) === -1` (generator.ts:135). */
  predicate AllPass(rs: seq<Requirement>, x: Subject)
    decreases rs, 0
  {
    rs == [] || (Test(rs[0], x) && AllPass(rs[1..], x))
  }

  /** `requirements.findIndex(r => r.test(set)) !== -1` (generator.ts:141). */
  predicate AnyPasses(rs: seq<Requirement>, x: Subject)
    decreases rs, 0
  {
    rs != [] && (Test(rs[0], x) || AnyPasses(rs[1..], x))
  }

  // ---------------------------------------------------------------------------
  // Reference meanings

  /** A role tuple fits a pattern position by position; positions past the
      pattern's end are free. */
  ghost predicate Fits(pattern: seq<Field>, tuple: RoleTuple) {
    forall i :: 0 <= i < |pattern| ==> FieldMatches(pattern[i], At(tuple, i))
  }

  /** The subject has a role `(category, subcategory, ...)`. */
  ghost predicate HasRole(x: Subject, category: string, subcategory: string) {
    exists k :: 0 <= k < |x.roles| && At(x.roles[k], 0) == Some(category) && At(x.roles[k], 1) == Some(subcategory)
  }

  lemma {:induction false} MatchesFromFits(pattern: seq<Field>, tuple: RoleTuple, i: nat)
    requires i <= |pattern|
    ensures MatchesFrom(pattern, tuple, i) <==> forall j :: i <= j < |pattern| ==> FieldMatches(pattern[j], At(tuple, j))
    decreases |pattern| - i
  {
    if i < |pattern| {
      MatchesFromFits(pattern, tuple, i + 1);
    }
  }

  lemma {:induction false} SomeRoleMatchesFits(pattern: seq<Field>, roles: seq<RoleTuple>)
    ensures SomeRoleMatches(pattern, roles) <==> exists k :: 0 <= k < |roles| && Fits(pattern, roles[k])
  {
    if roles != [] {
      SomeRoleMatchesFits(pattern, roles[1..]);
      MatchesFromFits(pattern, roles[0], 0);
      assert forall k :: 1 <= k < |roles| ==> roles[k] == roles[1..][k - 1];
    }
  }

  /** `role(p...)` holds iff some role tuple fits the pattern: `null` is a wildcard,
      an array means membership, a string means equality, and positions past the
      pattern are unconstrained (generator.ts:105-128). */
  lemma RoleSemantics(pattern: seq<Field>, x: Subject)
    ensures Test(Role(pattern), x) <==> exists k :: 0 <= k < |x.roles| && Fits(pattern, x.roles[k])
  {
    SomeRoleMatchesFits(pattern, x.roles);
  }

  /** A pattern of two strings is a test for a role `(category, subcategory, ...)`. */
  lemma ExactRoleSemantics(category: string, subcategory: string, x: Subject)
    ensures Test(Role([Exactly(category), Exactly(subcategory)]), x) <==> HasRole(x, category, subcategory)
  {
    var p := [Exactly(category), Exactly(subcategory)];
    RoleSemantics(p, x);
    forall k | 0 <= k < |x.roles|
      ensures Fits(p, x.roles[k]) <==> At(x.roles[k], 0) == Some(category) && At(x.roles[k], 1) == Some(subcategory)
    {
    }
  }

  lemma {:induction false} AllPassSemantics(rs: seq<Requirement>, x: Subject)
    ensures AllPass(rs, x) <==> forall i :: 0 <= i < |rs| ==> Test(rs[i], x)
  {
    if rs != [] {
      AllPassSemantics(rs[1..], x);
      assert forall i :: 1 <= i < |rs| ==> rs[i] == rs[1..][i - 1];
    }
  }

  lemma {:induction false} AnyPassesSemantics(rs: seq<Requirement>, x: Subject)
    ensures AnyPasses(rs, x) <==> exists i :: 0 <= i < |rs| && Test(rs[i], x)
  {
    if rs != [] {
      AnyPassesSemantics(rs[1..], x);
      assert forall i :: 1 <= i < |rs| ==> rs[i] == rs[1..][i - 1];
    }
  }

  /** `and(...)` holds iff every argument holds, so `and()` always holds
      (generator.ts:132-137). */
  lemma AndSemantics(rs: seq<Requirement>, x: Subject)
    ensures Test(And(rs), x) <==> forall i :: 0 <= i < |rs| ==> Test(rs[i], x)
    ensures rs == [] ==> Test(And(rs), x)
  {
    AllPassSemantics(rs, x);
  }

  /** `or(...)` holds iff some argument holds, so `or()` never holds
      (generator.ts:138-143). */
  lemma OrSemantics(rs: seq<Requirement>, x: Subject)
    ensures Test(Or(rs), x) <==> exists i :: 0 <= i < |rs| && Test(rs[i], x)
    ensures rs == [] ==> !Test(Or(rs), x)
  {
    AnyPassesSemantics(rs, x);
  }

  /** `not(r)` negates and `none()` always holds (generator.ts:129-131, 144-146). */
  lemma NotNoneSemantics(r: Requirement, x: Subject)
    ensures Test(Not(r), x) <==> !Test(r, x)
    ensures Test(None, x)
  {
  }

  lemma {:induction false} SomeUnusedSemantics(items: seq<string>, used: seq<string>)
    ensures SomeUnused(items, used) <==> exists i :: 0 <= i < |items| && items[i] !in used
  {
    if items != [] {
      SomeUnusedSemantics(items[1..], used);
      assert forall i :: 1 <= i < |items| ==> items[i] == items[1..][i - 1];
    }
  }

  /** `itemClause(used)` passes a fixed item iff it is not in `used`, and an item
      array iff some alternative is not in `used` (generator.ts:98-104). */
  lemma ItemClauseSemantics(used: seq<string>, x: Subject)
    ensures x.item.One? ==> (Test(ItemClause(used), x) <==> x.item.value !in used)
    ensures x.item.Many? ==> (Test(ItemClause(used), x) <==> exists i :: 0 <= i < |x.item.options| && x.item.options[i] !in used)
  {
    if x.item.Many? {
      SomeUnusedSemantics(x.item.options, used);
    }
  }

  // ---------------------------------------------------------------------------
  // testIn and countIn (generator.ts:38-53)

  /** `testIn(sets)`: some element passes. */
  function TestIn(r: Requirement, xs: seq<Subject>): (b: bool)
    ensures b <==> exists i :: 0 <= i < |xs| && Test(r, xs[i])
  {
    if xs == [] then false
    else
      assert forall i :: 1 <= i < |xs| ==> xs[i] == xs[1..][i - 1];
      Test(r, xs[0]) || TestIn(r, xs[1..])
  }

  /** `countIn(sets)`: the number of passing elements. */
  function CountIn(r: Requirement, xs: seq<Subject>): (c: nat)
    ensures c <= |xs|
    ensures c == 0 <==> forall i :: 0 <= i < |xs| ==> !Test(r, xs[i])
    ensures c == |xs| <==> forall i :: 0 <= i < |xs| ==> Test(r, xs[i])
  {
    if xs == [] then 0
    else
      assert forall i :: 1 <= i < |xs| ==> xs[i] == xs[1..][i - 1];
      (if Test(r, xs[0]) then 1 else 0) + CountIn(r, xs[1..])
  }

  /** Appending one element adds one to the count exactly when it passes. */
  lemma {:induction false} CountInAppend(r: Requirement, xs: seq<Subject>, y: Subject)
    ensures CountIn(r, xs + [y]) == CountIn(r, xs) + (if Test(r, y) then 1 else 0)
  {
    if xs != [] {
      assert (xs + [y])[1..] == xs[1..] + [y];
      CountInAppend(r, xs[1..], y);
    }
  }

  // ---------------------------------------------------------------------------
  // The named requirements (generator.ts:55-96)

  function Restricted(): Requirement { Role([Exactly("restricted")]) }
  function Dynamax(): Requirement { Role([Exactly("dynamax")]) }
  function Offense(): Requirement { Role([Exactly("offense")]) }
  function Support(): Requirement { Role([Exactly("support")]) }

  /** JavaScript truthiness of a string that may be missing. */
  predicate Truthy(w: Option<string>) {
    w.Some? && w.value != ""
  }

  /** `weather(w)` (generator.ts:67-74). */
  function Weather(w: Option<string>): Requirement {
    if Truthy(w) then
      Or([Role([Any, Exactly("weather"), Exactly(w.value)]), Not(Role([Any, Exactly("weather")]))])
    else
      None
  }

  // The roles the exclusions name: trick room setters and users, weakness
  // policy proccers and users.
  function TRSetter(): Requirement { Role([Exactly("speed"), Exactly("trickroom")]) }
  function TRUser(): Requirement { Role([Exactly("offense"), Exactly("trickroom")]) }
  function WPProccer(): Requirement { Role([Exactly("support"), Exactly("policy")]) }
  function WPUser(): Requirement { Role([Exactly("offense"), Exactly("policy")]) }

  function NoTRSetters(): Requirement { Not(TRSetter()) }
  function NoTRUsers(): Requirement { Not(TRUser()) }
  function NoWPProccers(): Requirement { Not(WPProccer()) }
  function NoWPUsers(): Requirement { Not(WPUser()) }

  /** `noAdditionalTR(sets)` (generator.ts:87-91). */
  function NoAdditionalTR(team: seq<Subject>): Requirement {
    if TestIn(NoTRSetters(), team) then NoTRUsers() else None
  }

  /** `noAdditionalWeather(sets)` (generator.ts:92-96). */
  function NoAdditionalWeather(team: seq<Subject>): Requirement {
    if Truthy(FindWeather(team)) then Weather(FindWeather(team)) else Not(Role([Exactly("offense"), Exactly("weather")]))
  }

  /** The subject has a role `(_, 'weather', w)`. */
  ghost predicate HasWeather(x: Subject, w: string) {
    exists k :: 0 <= k < |x.roles| && IsWeatherRole(x.roles[k]) && At(x.roles[k], 2) == Some(w)
  }

  /** `weather(undefined)` always passes; `weather(w)` passes a record iff it has a
      role `(_, 'weather', w)` or no role with subcategory `'weather'`. */
  lemma WeatherSemantics(w: Option<string>, x: Subject)
    ensures !Truthy(w) ==> Test(Weather(w), x)
    ensures Truthy(w) ==> (Test(Weather(w), x) <==> HasWeather(x, w.value) || !HasWeatherRole(x))
  {
    if Truthy(w) {
      var same := Role([Any, Exactly("weather"), Exactly(w.value)]);
      var any := Role([Any, Exactly("weather")]);
      assert Weather(w) == Or([same, Not(any)]);
      var rs := [same, Not(any)];
      OrSemantics(rs, x);
      assert rs[0] == same && rs[1] == Not(any);
      assert Test(Not(any), x) == !Test(any, x);
      assert Test(Weather(w), x) <==> Test(same, x) || !Test(any, x);
      RoleSemantics(same.pattern, x);
      RoleSemantics(any.pattern, x);
      forall k | 0 <= k < |x.roles|
        ensures Fits(same.pattern, x.roles[k]) <==> IsWeatherRole(x.roles[k]) && At(x.roles[k], 2) == Some(w.value)
        ensures Fits(any.pattern, x.roles[k]) <==> IsWeatherRole(x.roles[k])
      {
      }
      assert Test(same, x) <==> HasWeather(x, w.value);
      assert Test(any, x) <==> HasWeatherRole(x);
    }
  }

  /** The four exclusions reject exactly the subjects with the named role. */
  lemma ExclusionSemantics(x: Subject)
    ensures Test(NoTRSetters(), x) <==> !HasRole(x, "speed", "trickroom")
    ensures Test(NoTRUsers(), x) <==> !HasRole(x, "offense", "trickroom")
    ensures Test(NoWPProccers(), x) <==> !HasRole(x, "support", "policy")
    ensures Test(NoWPUsers(), x) <==> !HasRole(x, "offense", "policy")
  {
    ExactRoleSemantics("speed", "trickroom", x);
    ExactRoleSemantics("offense", "trickroom", x);
    ExactRoleSemantics("support", "policy", x);
    ExactRoleSemantics("offense", "policy", x);
  }

  /** `noAdditionalTR(sets)` forbids trick room users as soon as SOME set of the
      team is not a trick room setter, and otherwise lets everything through. */
  lemma NoAdditionalTRSemantics(team: seq<Subject>, x: Subject)
    ensures Test(NoAdditionalTR(team), x) <==>
      (forall j :: 0 <= j < |team| ==> HasRole(team[j], "speed", "trickroom")) || !HasRole(x, "offense", "trickroom")
  {
    ExclusionSemantics(x);
    forall j | 0 <= j < |team|
      ensures Test(NoTRSetters(), team[j]) <==> !HasRole(team[j], "speed", "trickroom")
    {
      ExclusionSemantics(team[j]);
    }
  }

  /** `noAdditionalWeather`: with a weather on the team it is `weather(w)`;
      without one it rejects exactly the records with an `('offense', 'weather')` role. */
  lemma NoAdditionalWeatherSemantics(team: seq<Subject>, x: Subject)
    ensures var w := FindWeather(team);
      Truthy(w) ==> (Test(NoAdditionalWeather(team), x) <==> HasWeather(x, w.value) || !HasWeatherRole(x))
    ensures !Truthy(FindWeather(team)) ==> (Test(NoAdditionalWeather(team), x) <==> !HasRole(x, "offense", "weather"))
  {
    WeatherSemantics(FindWeather(team), x);
    ExactRoleSemantics("offense", "weather", x);
  }
}
