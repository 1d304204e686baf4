/** The team builder `generate` (src/generator.ts:218-520): a fixed sequence of
    slots, each asking `generatePokemon` for a set under a requirement built from
    what the earlier picks committed the team to, and an optional shuffle. */
module Builder {
  import opened Basics
  import opened Catalog
  import opened Queries
  import opened Requirements
  import opened Moves
  import opened Selection

  /** `Format` (generator.ts:6-10). */
  datatype Format = Series8 | Series9 | Series10

  /** How many sets the `switch` of generator.ts:223-252 pushes. It has no
      `break`, so Series 8 and 10 push a restricted and an offensive set. */
  function Lead(format: Format): nat {
    if format == Series9 then 1 else 2
  }

  // ---------------------------------------------------------------------------
  // The role tests the slots use

  /** `role('support', 'policy', policyType)`: a proccer whose detail is one of the
      team's policy types. */
  function WPProccerFor(types: seq<Option<string>>): Requirement {
    Role([Exactly("support"), Exactly("policy"), OneOf(types)])
  }

  /** `role('speed', 'weather', w)`. */
  function WeatherSetter(w: string): Requirement {
    Role([Exactly("speed"), Exactly("weather"), Exactly(w)])
  }

  // ---------------------------------------------------------------------------
  // The slot requirements, branch for branch

  /** generator.ts:227-240. */
  function RestrictedLead(): Requirement {
    And([Restricted()])
  }

  /** generator.ts:242-251. */
  function OffensiveLead(): Requirement {
    And([Offense(), Not(Restricted())])
  }

  /** The second slot (generator.ts:255-278): an offensive set when the first set
      is a dynamax target, outside Series 10; a dynamax target otherwise. */
  function SecondSlot(format: Format, team: seq<Subject>): Requirement
    requires team != []
  {
    And([
      if Test(Dynamax(), team[0]) && format != Series10 then Offense() else Dynamax(),
      Weather(FindWeather(team)),
      NoWPProccers(),
      Not(Restricted())])
  }

  /** The third and fourth slots (generator.ts:281-293). */
  function RandomSlot(team: seq<Subject>): Requirement {
    And([Weather(FindWeather(team)), NoWPProccers(), Not(Restricted())])
  }

  /** The fifth slot (generator.ts:296-420); `available` holds the records whose
      species key is still free. `Undefined` is the branch that pushes nothing.
      The third branch repeats the second one's condition and is never taken. */
  function FifthSlot(team: seq<Subject>, available: seq<Subject>): Option<Requirement> {
    var w := FindWeather(team);
    if TestIn(WPUser(), team) then
      var policyType := FindPolicyTypes(team);
      if TestIn(TRUser(), team) && !TestIn(TRSetter(), team) then
        var both := And([Weather(w), TRSetter(), WPProccerFor(policyType), Not(Restricted())]);
        if TestIn(both, available) then Some(both) else Undefined
      else
        Some(And([Weather(w), Not(Restricted()), NoTRSetters(), WPProccerFor(policyType)]))
    else if TestIn(TRSetter(), team) && !TestIn(TRUser(), team) then
      Some(And([Weather(w), NoWPProccers(), Not(Restricted()), TRSetter()]))
    else if TestIn(TRSetter(), team) && !TestIn(TRUser(), team) then
      Some(And([Weather(w), NoWPProccers(), Not(Restricted()), TRUser()]))
    else if CountIn(Support(), team) < 2 then
      Some(And([Weather(w), NoWPProccers(), Not(Restricted()), Support()]))
    else
      Some(And([Weather(w), NoWPProccers(), Not(Restricted()), NoTRSetters(), NoAdditionalTR(team), NoWPUsers()]))
  }

  /** The sixth slot (generator.ts:422-504). Its third branch is dead like the
      fifth slot's. */
  function SixthSlot(team: seq<Subject>): Requirement {
    var w := FindWeather(team);
    if Truthy(w) && !TestIn(WeatherSetter(w.value), team) then
      And([WeatherSetter(w.value), NoWPProccers(), Not(Restricted()), NoTRSetters(), NoAdditionalTR(team), NoWPUsers()])
    else if TestIn(TRSetter(), team) && !TestIn(TRUser(), team) then
      And([Weather(w), NoWPProccers(), Not(Restricted()), TRSetter(), NoWPUsers()])
    else if TestIn(TRSetter(), team) && !TestIn(TRUser(), team) then
      And([Weather(w), NoWPProccers(), Not(Restricted()), TRUser(), NoWPUsers()])
    else
      And([Weather(w), NoWPProccers(), Not(Restricted()), NoTRSetters(), NoAdditionalTR(team), NoWPUsers(),
           NoAdditionalWeather(team)])
  }

  // ---------------------------------------------------------------------------
  // What the slot requirements mean

  /** A set does not contradict the team's weather `w`: with a weather on the
      team, it has a weather role for `w` or no weather role at all. */
  ghost predicate WeatherOk(w: Option<string>, x: Subject) {
    Truthy(w) ==> HasWeather(x, w.value) || !HasWeatherRole(x)
  }

  /** The rule for the second slot, given the team's first set. */
  predicate DynamaxRule(format: Format, first: Subject, x: Subject) {
    if Test(Dynamax(), first) && format != Series10 then Test(Offense(), x) else Test(Dynamax(), x)
  }

  lemma AndMember(rs: seq<Requirement>, i: nat, x: Subject)
    requires Test(And(rs), x) && i < |rs|
    ensures Test(rs[i], x)
  {
    AndSemantics(rs, x);
  }

  /** The two lead slots ask for a restricted set and for an offensive set that
      is not restricted. */
  lemma LeadSlotsSemantics(x: Subject)
    ensures Test(RestrictedLead(), x) ==> Test(Restricted(), x)
    ensures Test(OffensiveLead(), x) ==> Test(Offense(), x) && !Test(Restricted(), x)
  {
    if Test(RestrictedLead(), x) {
      AndMember(RestrictedLead().all, 0, x);
    }
    if Test(OffensiveLead(), x) {
      AndMember(OffensiveLead().all, 0, x);
      AndMember(OffensiveLead().all, 1, x);
    }
  }

  /** The second slot follows the dynamax rule, keeps the weather, and excludes
      restricted sets and weakness policy proccers. */
  lemma SecondSlotSemantics(format: Format, team: seq<Subject>, x: Subject)
    requires team != [] && Test(SecondSlot(format, team), x)
    ensures DynamaxRule(format, team[0], x)
    ensures WeatherOk(FindWeather(team), x)
    ensures !Test(Restricted(), x) && !HasRole(x, "support", "policy")
  {
    var rs := SecondSlot(format, team).all;
    AndMember(rs, 0, x);
    AndMember(rs, 1, x);
    AndMember(rs, 2, x);
    AndMember(rs, 3, x);
    WeatherSemantics(FindWeather(team), x);
    ExclusionSemantics(x);
  }

  /** The third and fourth slots keep the weather and exclude restricted sets and
      weakness policy proccers. */
  lemma RandomSlotSemantics(team: seq<Subject>, x: Subject)
    requires Test(RandomSlot(team), x)
    ensures WeatherOk(FindWeather(team), x)
    ensures !Test(Restricted(), x) && !HasRole(x, "support", "policy")
  {
    var rs := RandomSlot(team).all;
    AndMember(rs, 0, x);
    AndMember(rs, 1, x);
    AndMember(rs, 2, x);
    WeatherSemantics(FindWeather(team), x);
    ExclusionSemantics(x);
  }

  /** Whatever the fifth slot asks for keeps the weather and excludes restricted
      sets. */
  lemma FifthSlotSemantics(team: seq<Subject>, available: seq<Subject>, x: Subject)
    requires FifthSlot(team, available).Some? && Test(FifthSlot(team, available).value, x)
    ensures WeatherOk(FindWeather(team), x)
    ensures !Test(Restricted(), x)
  {
    var rs := FifthSlot(team, available).value.all;
    var w := FindWeather(team);
    if TestIn(WPUser(), team) && !(TestIn(TRUser(), team) && !TestIn(TRSetter(), team)) {
      AndMember(rs, 0, x);
      AndMember(rs, 1, x);
    } else {
      AndMember(rs, 0, x);
      AndMember(rs, if TestIn(WPUser(), team) then 3 else 2, x);
    }
    WeatherSemantics(w, x);
  }

  /** The proccer one policy user on the team gets: a weakness policy proccer for
      one of the team's policy types, never a trick room setter unless the team
      has a trick room user and no setter; then it is both a setter and a proccer,
      or nothing is pushed when no free record is both. */
  lemma FifthSlotPolicy(team: seq<Subject>, available: seq<Subject>, x: Subject)
    requires TestIn(WPUser(), team)
    ensures var slot := FifthSlot(team, available);
      slot.Some? && Test(slot.value, x) ==>
      exists k :: 0 <= k < |x.roles| && At(x.roles[k], 0) == Some("support") && At(x.roles[k], 1) == Some("policy") &&
        At(x.roles[k], 2) in FindPolicyTypes(team)
    ensures var slot := FifthSlot(team, available);
      slot.Some? && Test(slot.value, x) && !(TestIn(TRUser(), team) && !TestIn(TRSetter(), team)) ==>
      !HasRole(x, "speed", "trickroom")
    ensures var slot := FifthSlot(team, available);
      slot.Some? && Test(slot.value, x) && TestIn(TRUser(), team) && !TestIn(TRSetter(), team) ==>
      HasRole(x, "speed", "trickroom")
    ensures FifthSlot(team, available).Undefined? <==>
      TestIn(TRUser(), team) && !TestIn(TRSetter(), team) &&
      forall i :: 0 <= i < |available| ==>
        !Test(And([Weather(FindWeather(team)), TRSetter(), WPProccerFor(FindPolicyTypes(team)), Not(Restricted())]), available[i])
  {
    var slot := FifthSlot(team, available);
    var types := FindPolicyTypes(team);
    if slot.Some? && Test(slot.value, x) {
      var rs := slot.value.all;
      var both := TestIn(TRUser(), team) && !TestIn(TRSetter(), team);
      AndMember(rs, if both then 2 else 3, x);
      RoleSemantics(WPProccerFor(types).pattern, x);
      var k :| 0 <= k < |x.roles| && Fits(WPProccerFor(types).pattern, x.roles[k]);
      assert FieldMatches(WPProccerFor(types).pattern[2], At(x.roles[k], 2));
      assert FieldMatches(WPProccerFor(types).pattern[0], At(x.roles[k], 0));
      assert FieldMatches(WPProccerFor(types).pattern[1], At(x.roles[k], 1));
      if both {
        AndMember(rs, 1, x);
        ExactRoleSemantics("speed", "trickroom", x);
      } else {
        AndMember(rs, 2, x);
        ExclusionSemantics(x);
      }
    }
  }

  /** Without a policy user on the team, a trick room setter without a trick room
      user makes the fifth slot ask for ANOTHER setter: the branch meant to add a
      trick room user repeats this condition and is never reached. With fewer than
      two support sets and no trick room setter, it asks for a support set. */
  lemma FifthSlotTrickRoomAndSupport(team: seq<Subject>, available: seq<Subject>, x: Subject)
    requires !TestIn(WPUser(), team)
    ensures FifthSlot(team, available).Some?
    ensures Test(FifthSlot(team, available).value, x) ==> !HasRole(x, "support", "policy")
    ensures TestIn(TRSetter(), team) && !TestIn(TRUser(), team) && Test(FifthSlot(team, available).value, x) ==>
      HasRole(x, "speed", "trickroom")
    ensures (!(TestIn(TRSetter(), team) && !TestIn(TRUser(), team)) && CountIn(Support(), team) < 2 &&
      Test(FifthSlot(team, available).value, x)) ==>
      Test(Support(), x) && !HasRole(x, "support", "policy")
  {
    var slot := FifthSlot(team, available);
    if Test(slot.value, x) {
      AndMember(slot.value.all, 1, x);
      AndMember(slot.value.all, 3, x);
      ExclusionSemantics(x);
      if TestIn(TRSetter(), team) && !TestIn(TRUser(), team) {
        ExactRoleSemantics("speed", "trickroom", x);
      }
    }
  }

  /** The fifth slot's last branch (generator.ts:397-418), for a team without a
      weakness policy user, trick room gap or support shortage: no new trick room
      setter, no new weakness policy user, and no trick room user as soon as some
      set of the team is not a setter. */
  lemma FifthSlotFallback(team: seq<Subject>, available: seq<Subject>, x: Subject)
    requires !TestIn(WPUser(), team) && !(TestIn(TRSetter(), team) && !TestIn(TRUser(), team))
    requires CountIn(Support(), team) >= 2
    requires FifthSlot(team, available).Some? && Test(FifthSlot(team, available).value, x)
    ensures !HasRole(x, "speed", "trickroom") && !HasRole(x, "offense", "policy") && !HasRole(x, "support", "policy")
    ensures (exists j :: 0 <= j < |team| && !HasRole(team[j], "speed", "trickroom")) ==> !HasRole(x, "offense", "trickroom")
  {
    var rs := FifthSlot(team, available).value.all;
    AndMember(rs, 1, x);
    AndMember(rs, 3, x);
    AndMember(rs, 4, x);
    AndMember(rs, 5, x);
    ExclusionSemantics(x);
    NoAdditionalTRSemantics(team, x);
  }

  /** Whatever the sixth slot asks for keeps the weather and excludes restricted
      sets, weakness policy proccers and weakness policy users. */
  lemma SixthSlotSemantics(team: seq<Subject>, x: Subject)
    requires Test(SixthSlot(team), x)
    ensures WeatherOk(FindWeather(team), x)
    ensures !Test(Restricted(), x) && !HasRole(x, "support", "policy") && !HasRole(x, "offense", "policy")
  {
    var rs := SixthSlot(team).all;
    var w := FindWeather(team);
    AndMember(rs, 0, x);
    AndMember(rs, 1, x);
    AndMember(rs, 2, x);
    if Truthy(w) && !TestIn(WeatherSetter(w.value), team) {
      AndMember(rs, 5, x);
    } else if TestIn(TRSetter(), team) && !TestIn(TRUser(), team) {
      AndMember(rs, 4, x);
    } else {
      AndMember(rs, 5, x);
    }
    ExclusionSemantics(x);
    if Truthy(w) && !TestIn(WeatherSetter(w.value), team) {
      RoleSemantics(WeatherSetter(w.value).pattern, x);
      var k :| 0 <= k < |x.roles| && Fits(WeatherSetter(w.value).pattern, x.roles[k]);
      assert FieldMatches(WeatherSetter(w.value).pattern[1], At(x.roles[k], 1));
      assert FieldMatches(WeatherSetter(w.value).pattern[2], At(x.roles[k], 2));
    } else {
      WeatherSemantics(w, x);
    }
  }

  /** A team with a weather but no setter for it gets its setter in the last slot;
      a team without a weather, no setter of it to add and no trick room gap gets
      no set that needs one. */
  lemma SixthSlotWeather(team: seq<Subject>, x: Subject)
    requires Test(SixthSlot(team), x)
    ensures var w := FindWeather(team);
      Truthy(w) && !TestIn(WeatherSetter(w.value), team) ==>
      exists k :: 0 <= k < |x.roles| &&
        At(x.roles[k], 0) == Some("speed") && IsWeatherRole(x.roles[k]) && At(x.roles[k], 2) == Some(w.value)
    ensures !Truthy(FindWeather(team)) && !(TestIn(TRSetter(), team) && !TestIn(TRUser(), team)) ==>
      !HasRole(x, "offense", "weather")
  {
    var rs := SixthSlot(team).all;
    var w := FindWeather(team);
    if Truthy(w) && !TestIn(WeatherSetter(w.value), team) {
      AndMember(rs, 0, x);
      RoleSemantics(WeatherSetter(w.value).pattern, x);
      var k :| 0 <= k < |x.roles| && Fits(WeatherSetter(w.value).pattern, x.roles[k]);
      assert FieldMatches(WeatherSetter(w.value).pattern[0], At(x.roles[k], 0));
      assert FieldMatches(WeatherSetter(w.value).pattern[1], At(x.roles[k], 1));
      assert FieldMatches(WeatherSetter(w.value).pattern[2], At(x.roles[k], 2));
    } else if !Truthy(w) && !(TestIn(TRSetter(), team) && !TestIn(TRUser(), team)) {
      AndMember(rs, 6, x);
      NoAdditionalWeatherSemantics(team, x);
    }
  }

  /** The sixth slot's trick room branches (generator.ts:444-482). Without a
      weather gap, a team with a trick room setter and no trick room user gets
      ANOTHER setter: the branch meant to add a user repeats the condition and is
      never taken. Every other branch adds no setter, and no user as soon as some
      set of the team is not a setter. */
  lemma {:induction false} SixthSlotTrickRoom(team: seq<Subject>, x: Subject)
    requires Test(SixthSlot(team), x)
    ensures var w := FindWeather(team);
      !(Truthy(w) && !TestIn(WeatherSetter(w.value), team)) && TestIn(TRSetter(), team) && !TestIn(TRUser(), team) ==>
      HasRole(x, "speed", "trickroom")
    ensures !(TestIn(TRSetter(), team) && !TestIn(TRUser(), team)) ==> !HasRole(x, "speed", "trickroom")
    ensures !(TestIn(TRSetter(), team) && !TestIn(TRUser(), team)) ==>
      (exists j :: 0 <= j < |team| && !HasRole(team[j], "speed", "trickroom")) ==> !HasRole(x, "offense", "trickroom")
  {
    var rs := SixthSlot(team).all;
    var w := FindWeather(team);
    if !(Truthy(w) && !TestIn(WeatherSetter(w.value), team)) && TestIn(TRSetter(), team) && !TestIn(TRUser(), team) {
      AndMember(rs, 3, x);
      ExactRoleSemantics("speed", "trickroom", x);
    } else if !(TestIn(TRSetter(), team) && !TestIn(TRUser(), team)) {
      AndMember(rs, 3, x);
      AndMember(rs, 4, x);
      ExclusionSemantics(x);
      NoAdditionalTRSemantics(team, x);
    }
  }

  // ---------------------------------------------------------------------------
  // The team so far

  /** What slot `|sets|` promises of the set `x` that fills it, given the team
      `sets` before it. */
  ghost predicate SlotFact(format: Format, sets: seq<GeneratedSet>, x: Subject) {
    (|sets| == 0 && format != Series9 ==> Test(Restricted(), x)) &&
    (|sets| + 1 >= Lead(format) ==> !Test(Restricted(), x)) &&
    (|sets| >= Lead(format) ==> WeatherOk(FindWeather(Subjects(sets)), x)) &&
    (|sets| == Lead(format) ==> DynamaxRule(format, SubjectOfPick(sets[0]), x))
  }

  /** Every set of the team keeps the promise of its slot. */
  ghost predicate TeamSoFar(format: Format, sets: seq<GeneratedSet>) {
    forall n :: 0 <= n < |sets| ==> SlotFact(format, sets[..n], SubjectOfPick(sets[n]))
  }

  /** Pick `p` drew set `g` from the catalog: a key of `species0` that the record's
      name starts with, the record's name, roles and allowed item, ability and
      spread, moves resolved from what the record held, and an export text
      filled with those. */
  ghost predicate Drawn(catalog: seq<SetData>, species0: set<string>, g: GeneratedSet, p: Pick) {
    p.index < |catalog| && p.key in species0 && p.key != "" &&
    StartsWith(catalog[p.index].pokemon, p.key) && FromRecord(g, catalog[p.index]) &&
    |g.moves| == Min(|p.before|, 4) && MovesFrom(p.kept, p.before, g.moves) && Exported(g)
  }

  function Keys(picks: seq<Pick>): (keys: set<string>)
    ensures forall i :: 0 <= i < |picks| ==> picks[i].key in keys
    ensures forall k :: k in keys ==> exists i :: 0 <= i < |picks| && picks[i].key == k
  {
    set i | 0 <= i < |picks| :: picks[i].key
  }

  /** No two picks drew under the same species key. */
  ghost predicate KeysApart(picks: seq<Pick>) {
    forall i, j :: 0 <= i < j < |picks| ==> picks[i].key != picks[j].key
  }

  /** A pick under a key no earlier pick used keeps `KeysApart`, and adds its
      key to `Keys`. */
  lemma KeysApartExtend(picks: seq<Pick>, p: Pick)
    requires KeysApart(picks) && p.key !in Keys(picks)
    ensures KeysApart(picks + [p])
    ensures Keys(picks + [p]) == Keys(picks) + {p.key}
  {
    KeysAppend(picks, p);
    var picks' := picks + [p];
    assert picks'[|picks|] == p && forall i :: 0 <= i < |picks| ==> picks'[i] == picks[i];
  }

  /** One more pick adds its key to `Keys`. */
  lemma KeysAppend(picks: seq<Pick>, p: Pick)
    ensures Keys(picks + [p]) == Keys(picks) + {p.key}
  {
    var picks' := picks + [p];
    assert picks'[|picks|] == p && forall i :: 0 <= i < |picks| ==> picks'[i] == picks[i];
  }

  /** Species Clause and Item Clause over the team: every set was drawn under its
      own species key, no key twice, and no item twice or from `used0`. */
  ghost predicate FairTeam(catalog: seq<SetData>, species0: set<string>, used0: seq<string>, sets: seq<GeneratedSet>, picks: seq<Pick>) {
    AllDrawn(catalog, species0, sets, picks) && KeysApart(picks) &&
    Distinct(used0 + Items(sets))
  }

  /** Every set was drawn by the pick beside it. */
  ghost predicate AllDrawn(catalog: seq<SetData>, species0: set<string>, sets: seq<GeneratedSet>, picks: seq<Pick>) {
    |picks| == |sets| && forall i :: 0 <= i < |sets| ==> Drawn(catalog, species0, sets[i], picks[i])
  }

  /** One more drawn set keeps `AllDrawn`. */
  lemma AllDrawnExtend(catalog: seq<SetData>, species0: set<string>, sets: seq<GeneratedSet>, picks: seq<Pick>,
                       g: GeneratedSet, p: Pick)
    requires AllDrawn(catalog, species0, sets, picks) && Drawn(catalog, species0, g, p)
    ensures AllDrawn(catalog, species0, sets + [g], picks + [p])
  {
    var sets', picks' := sets + [g], picks + [p];
    forall i | 0 <= i < |sets'|
      ensures Drawn(catalog, species0, sets'[i], picks'[i])
    {
      if i < |sets| {
        assert sets'[i] == sets[i] && picks'[i] == picks[i];
      }
    }
  }

  /** `FairTeam`, and the draft state is what the picks left of `species0` and `used0`. */
  ghost predicate Drafted(catalog: seq<SetData>, species0: set<string>, used0: seq<string>,
                          species: set<string>, used: seq<string>, sets: seq<GeneratedSet>, picks: seq<Pick>) {
    FairTeam(catalog, species0, used0, sets, picks) &&
    species == species0 - Keys(picks) && used == used0 + Items(sets)
  }

  /** Appending a set that keeps its slot's promise keeps the whole team's. */
  lemma {:induction false} TeamSoFarExtend(format: Format, sets: seq<GeneratedSet>, g: GeneratedSet)
    requires TeamSoFar(format, sets) && SlotFact(format, sets, SubjectOfPick(g))
    ensures TeamSoFar(format, sets + [g])
  {
    var sets' := sets + [g];
    forall n | 0 <= n < |sets'|
      ensures SlotFact(format, sets'[..n], SubjectOfPick(sets'[n]))
    {
      assert sets'[..n] == sets[..n];
      if n == |sets| {
        assert sets[..n] == sets;
      }
    }
  }

  /** A slot's promise is about roles only, so it passes from the record to the
      set generated from it. */
  lemma SlotFactRoles(format: Format, sets: seq<GeneratedSet>, x: Subject, y: Subject)
    requires x.roles == y.roles && SlotFact(format, sets, x)
    ensures SlotFact(format, sets, y)
  {
    assert Test(Restricted(), x) == Test(Restricted(), y);
    assert Test(Dynamax(), x) == Test(Dynamax(), y);
    assert Test(Offense(), x) == Test(Offense(), y);
  }

  /** The team's shape once built: in Series 8 and 10 the first set is restricted
      and no other is; in Series 9 none is. From the slot after the leads on,
      every set agrees with the weather of the sets before it; the set in that
      slot follows the dynamax rule. */
  lemma TeamShape(format: Format, sets: seq<GeneratedSet>)
    requires TeamSoFar(format, sets) && |sets| > Lead(format)
    ensures format != Series9 ==> Test(Restricted(), SubjectOfPick(sets[0]))
    ensures forall i :: Lead(format) - 1 <= i < |sets| ==> !Test(Restricted(), SubjectOfPick(sets[i]))
    ensures forall i :: Lead(format) <= i < |sets| ==> WeatherOk(FindWeather(Subjects(sets[..i])), SubjectOfPick(sets[i]))
    ensures DynamaxRule(format, SubjectOfPick(sets[0]), SubjectOfPick(sets[Lead(format)]))
  {
    assert SlotFact(format, sets[..0], SubjectOfPick(sets[0]));
    assert SlotFact(format, sets[..Lead(format)], SubjectOfPick(sets[Lead(format)]));
    assert sets[..Lead(format)][0] == sets[0];
    forall i | Lead(format) - 1 <= i < |sets|
      ensures !Test(Restricted(), SubjectOfPick(sets[i]))
    {
      assert SlotFact(format, sets[..i], SubjectOfPick(sets[i]));
    }
    forall i | Lead(format) <= i < |sets|
      ensures WeatherOk(FindWeather(Subjects(sets[..i])), SubjectOfPick(sets[i]))
    {
      assert SlotFact(format, sets[..i], SubjectOfPick(sets[i]));
    }
  }

  /** Once a weather is on the team, every later set from the slot after the leads
      on agrees with the weather of the finished team. */
  lemma TeamWeather(format: Format, sets: seq<GeneratedSet>)
    requires TeamSoFar(format, sets)
    ensures forall i :: Lead(format) <= i < |sets| && Truthy(FindWeather(Subjects(sets[..i]))) ==>
      WeatherOk(FindWeather(Subjects(sets)), SubjectOfPick(sets[i]))
  {
    forall i | Lead(format) <= i < |sets| && Truthy(FindWeather(Subjects(sets[..i])))
      ensures WeatherOk(FindWeather(Subjects(sets)), SubjectOfPick(sets[i]))
    {
      assert SlotFact(format, sets[..i], SubjectOfPick(sets[i]));
      WeatherSettled(sets, i);
    }
  }

  /** A weather found among the first `i` sets is the weather of the whole team. */
  lemma WeatherSettled(sets: seq<GeneratedSet>, i: nat)
    requires i <= |sets| && Truthy(FindWeather(Subjects(sets[..i])))
    ensures FindWeather(Subjects(sets)) == FindWeather(Subjects(sets[..i]))
  {
    var before := Subjects(sets[..i]);
    FindWeatherSpec(before);
    assert sets == sets[..i] + sets[i..];
    SubjectsAppend(sets[..i], sets[i..]);
    FindWeatherStable(before, Subjects(sets[i..]));
  }

  // ---------------------------------------------------------------------------
  // What each pick was asked for

  /** The records whose species key is still in `species`, as requirements see them. */
  function Available(catalog: seq<SetData>, species: set<string>): seq<Subject> {
    RecordSubjects(AvailableSets(catalog, species))
  }

  /** `req` is what `generate` asks of the set in slot `|before|`, after the sets
      `before` and with the records `available` still free. A fifth slot that
      pushes nothing lets the sixth slot's requirement fill that position. */
  ghost predicate SlotAsks(format: Format, before: seq<Subject>, available: seq<Subject>, req: Requirement) {
    var n := |before|;
    if n + 1 < Lead(format) then req == RestrictedLead()
    else if n + 1 == Lead(format) then req == OffensiveLead()
    else if n == Lead(format) then req == SecondSlot(format, before)
    else if n < Lead(format) + 3 then req == RandomSlot(before)
    else if n == Lead(format) + 3 then
      FifthSlot(before, available) == Some(req) ||
      (FifthSlot(before, available).Undefined? && req == SixthSlot(before))
    else n == Lead(format) + 4 && req == SixthSlot(before)
  }

  /** Pick `p`, made after the sets `before` while the species keys `species` were
      still free, drew a record that passed `req`, and `req` is what that slot
      asks for. */
  ghost predicate PickPassed(format: Format, catalog: seq<SetData>, species: set<string>,
                             before: seq<GeneratedSet>, p: Pick, req: Requirement) {
    p.index < |catalog| && Test(req, SubjectOf(catalog[p.index])) &&
    SlotAsks(format, Subjects(before), Available(catalog, species), req)
  }

  /** Every set was drawn from a record that passed the requirement `reqs[i]` of its
      slot, as built from the sets before it and the species still free then. */
  ghost predicate Asked(format: Format, catalog: seq<SetData>, species0: set<string>,
                        sets: seq<GeneratedSet>, picks: seq<Pick>, reqs: seq<Requirement>) {
    |reqs| == |sets| && |picks| == |sets| &&
    forall i :: 0 <= i < |sets| ==>
      PickPassed(format, catalog, species0 - Keys(picks[..i]), sets[..i], picks[i], reqs[i])
  }

  /** The picks before the last one keep `Asked` when one more is made. */
  lemma AskedPrefix(format: Format, catalog: seq<SetData>, species0: set<string>,
                    sets: seq<GeneratedSet>, picks: seq<Pick>, reqs: seq<Requirement>,
                    g: GeneratedSet, p: Pick, req: Requirement, i: nat)
    requires Asked(format, catalog, species0, sets, picks, reqs) && i < |sets|
    ensures PickPassed(format, catalog, species0 - Keys((picks + [p])[..i]), (sets + [g])[..i],
                       (picks + [p])[i], (reqs + [req])[i])
  {
    assert (sets + [g])[..i] == sets[..i] && (picks + [p])[..i] == picks[..i];
  }

  /** One more pick that passed the requirement of the next slot keeps `Asked`. */
  lemma AskedExtend(format: Format, catalog: seq<SetData>, species0: set<string>,
                    sets: seq<GeneratedSet>, picks: seq<Pick>, reqs: seq<Requirement>,
                    g: GeneratedSet, p: Pick, req: Requirement)
    requires Asked(format, catalog, species0, sets, picks, reqs)
    requires PickPassed(format, catalog, species0 - Keys(picks), sets, p, req)
    ensures Asked(format, catalog, species0, sets + [g], picks + [p], reqs + [req])
  {
    var sets', picks', reqs' := sets + [g], picks + [p], reqs + [req];
    forall i | 0 <= i < |sets'|
      ensures PickPassed(format, catalog, species0 - Keys(picks'[..i]), sets'[..i], picks'[i], reqs'[i])
    {
      if i < |sets| {
        AskedPrefix(format, catalog, species0, sets, picks, reqs, g, p, req, i);
      } else {
        assert sets'[..i] == sets && picks'[..i] == picks;
      }
    }
  }

  /** A set that passed what its slot asks for keeps the slot's promise. */
  lemma SlotAsksFact(format: Format, sets: seq<GeneratedSet>, available: seq<Subject>, req: Requirement, x: Subject)
    requires SlotAsks(format, Subjects(sets), available, req) && Test(req, x)
    ensures SlotFact(format, sets, x)
  {
    var before := Subjects(sets);
    var n := |sets|;
    if n < Lead(format) {
      LeadSlotsSemantics(x);
    } else if n == Lead(format) {
      SecondSlotSemantics(format, before, x);
      assert before[0] == SubjectOfPick(sets[0]);
    } else if n < Lead(format) + 3 {
      RandomSlotSemantics(before, x);
    } else if FifthSlot(before, available) == Some(req) {
      FifthSlotSemantics(before, available, x);
    } else {
      SixthSlotSemantics(before, x);
    }
  }

  /** A set that passed the requirement of a slot after the leads is a weakness
      policy proccer only in the fifth slot, and only when a weakness policy user
      is already on the team. */
  lemma SlotProccer(format: Format, before: seq<Subject>, available: seq<Subject>, req: Requirement, x: Subject)
    requires SlotAsks(format, before, available, req) && Test(req, x)
    requires |before| >= Lead(format) && HasRole(x, "support", "policy")
    ensures |before| == Lead(format) + 3 && TestIn(WPUser(), before)
  {
    var n := |before|;
    if n == Lead(format) {
      SecondSlotSemantics(format, before, x);
    } else if n < Lead(format) + 3 {
      RandomSlotSemantics(before, x);
    } else if FifthSlot(before, available) == Some(req) {
      if !TestIn(WPUser(), before) {
        FifthSlotTrickRoomAndSupport(before, available, x);
      }
    } else {
      SixthSlotSemantics(before, x);
    }
  }

  /** Over the whole team: from the second slot on, a weakness policy proccer
      joins only in the fifth slot, and only when a weakness policy user is
      already on the team (the comment at generator.ts:270-271). */
  lemma TeamProccers(format: Format, catalog: seq<SetData>, species0: set<string>,
                     sets: seq<GeneratedSet>, picks: seq<Pick>, reqs: seq<Requirement>)
    requires Asked(format, catalog, species0, sets, picks, reqs)
    requires forall i :: 0 <= i < |sets| ==> sets[i].roles == catalog[picks[i].index].roles
    ensures forall i :: Lead(format) <= i < |sets| && HasRole(SubjectOfPick(sets[i]), "support", "policy") ==>
      i == Lead(format) + 3 && TestIn(WPUser(), Subjects(sets[..i]))
  {
    forall i | Lead(format) <= i < |sets| && HasRole(SubjectOfPick(sets[i]), "support", "policy")
      ensures i == Lead(format) + 3 && TestIn(WPUser(), Subjects(sets[..i]))
    {
      var x := SubjectOf(catalog[picks[i].index]);
      assert x.roles == SubjectOfPick(sets[i]).roles;
      SlotProccer(format, Subjects(sets[..i]), Available(catalog, species0 - Keys(picks[..i])), reqs[i], x);
    }
  }

  /** The `moves` arrays of the records the picks drew from. */
  function Touched(catalog: seq<SetData>, picks: seq<Pick>): set<MoveList> {
    set i | 0 <= i < |picks| && picks[i].index < |catalog| :: catalog[picks[i].index].moves
  }

  /** The contents of every `moves` array of the catalog. */
  ghost function Slots(catalog: seq<SetData>): map<MoveList, seq<MoveSlot>>
    reads MoveLists(catalog)
  {
    map m | m in MoveLists(catalog) :: m.slots
  }

  /** `now` is what the picks left of the move arrays `start` of the catalog: the
      array of every picked record holds exactly the moves of the set drawn from
      it, an array no pick drew from is as it was, no array was added, and every
      pick drew from what its array held at that point. */
  ghost predicate MovesLeft(catalog: seq<SetData>, start: map<MoveList, seq<MoveSlot>>, now: map<MoveList, seq<MoveSlot>>,
                            sets: seq<GeneratedSet>, picks: seq<Pick>) {
    |picks| == |sets| &&
    (forall i :: 0 <= i < |sets| ==>
       picks[i].index < |catalog| && catalog[picks[i].index].moves in now &&
       now[catalog[picks[i].index].moves] == AsSlots(sets[i].moves)) &&
    (forall m :: m in start ==> m in now && (m !in Touched(catalog, picks) ==> now[m] == start[m])) &&
    (forall m :: m in now ==> m in start) &&
    DrewFrom(catalog, start, sets, picks)
  }

  /** The last of the first `n` picks that drew from array `m`, or -1 if none did. */
  function LastDraw(catalog: seq<SetData>, picks: seq<Pick>, m: MoveList, n: nat): (j: int)
    requires n <= |picks|
    ensures -1 <= j < n
    ensures j >= 0 ==> picks[j].index < |catalog| && catalog[picks[j].index].moves == m
  {
    if n == 0 then -1
    else if picks[n - 1].index < |catalog| && catalog[picks[n - 1].index].moves == m then n - 1
    else LastDraw(catalog, picks, m, n - 1)
  }

  /** No pick after `LastDraw` drew from `m`. */
  lemma {:induction false} LastDrawLast(catalog: seq<SetData>, picks: seq<Pick>, m: MoveList, n: nat)
    requires n <= |picks|
    ensures forall k :: LastDraw(catalog, picks, m, n) < k < n ==>
      !(picks[k].index < |catalog| && catalog[picks[k].index].moves == m)
  {
    if n > 0 {
      LastDrawLast(catalog, picks, m, n - 1);
    }
  }

  /** Only the first `n` picks decide `LastDraw`. */
  lemma {:induction false} LastDrawPrefix(catalog: seq<SetData>, picks: seq<Pick>, more: seq<Pick>, m: MoveList, n: nat)
    requires n <= |picks|
    ensures LastDraw(catalog, picks + more, m, n) == LastDraw(catalog, picks, m, n)
  {
    if n > 0 {
      assert (picks + more)[n - 1] == picks[n - 1];
      LastDrawPrefix(catalog, picks, more, m, n - 1);
    }
  }

  /** Every pick drew its moves from what its record's array held at the time. */
  ghost predicate DrewFrom(catalog: seq<SetData>, start: map<MoveList, seq<MoveSlot>>,
                           sets: seq<GeneratedSet>, picks: seq<Pick>)
    requires |picks| == |sets|
  {
    forall i :: 0 <= i < |picks| ==> DrawnAt(catalog, start, sets, picks, i)
  }

  /** Pick `i` drew the moves of the set of the last earlier pick that drew from
      its record's array, or the array's contents at `start` when no earlier
      pick did. */
  ghost predicate DrawnAt(catalog: seq<SetData>, start: map<MoveList, seq<MoveSlot>>,
                          sets: seq<GeneratedSet>, picks: seq<Pick>, i: nat)
    requires |picks| == |sets| && i < |picks|
  {
    picks[i].index < |catalog| &&
    var m := catalog[picks[i].index].moves;
    var j := LastDraw(catalog, picks, m, i);
    (j < 0 ==> m in start && picks[i].before == start[m]) &&
    (j >= 0 ==> picks[i].before == AsSlots(sets[j].moves))
  }

  /** Pick `p`, the next after `picks`, drew `p.before` as `DrewFrom` asks. */
  ghost predicate DrawsNext(catalog: seq<SetData>, start: map<MoveList, seq<MoveSlot>>,
                            sets: seq<GeneratedSet>, picks: seq<Pick>, p: Pick)
    requires |picks| == |sets| && p.index < |catalog|
  {
    var m := catalog[p.index].moves;
    var j := LastDraw(catalog, picks, m, |picks|);
    (j < 0 ==> m in start && p.before == start[m]) &&
    (j >= 0 ==> p.before == AsSlots(sets[j].moves))
  }

  /** A pick that drew `p.before` from its record's array in `now` drew as
      `DrewFrom` asks: `now` holds the last earlier set drawn from that array,
      or, when there is none, the array's contents at `start`. */
  lemma DrawsHeld(catalog: seq<SetData>, start: map<MoveList, seq<MoveSlot>>, now: map<MoveList, seq<MoveSlot>>,
                  sets: seq<GeneratedSet>, picks: seq<Pick>, p: Pick)
    requires MovesLeft(catalog, start, now, sets, picks)
    requires p.index < |catalog| && catalog[p.index].moves in now && p.before == now[catalog[p.index].moves]
    ensures DrawsNext(catalog, start, sets, picks, p)
  {
    var m := catalog[p.index].moves;
    if LastDraw(catalog, picks, m, |picks|) < 0 {
      LastDrawLast(catalog, picks, m, |picks|);
      assert m !in Touched(catalog, picks);
    }
  }

  /** One more pick that drew as `DrewFrom` asks keeps `DrewFrom`. */
  lemma DrewFromExtend(catalog: seq<SetData>, start: map<MoveList, seq<MoveSlot>>,
                       sets: seq<GeneratedSet>, picks: seq<Pick>, g: GeneratedSet, p: Pick)
    requires |picks| == |sets| && DrewFrom(catalog, start, sets, picks)
    requires p.index < |catalog| && DrawsNext(catalog, start, sets, picks, p)
    ensures DrewFrom(catalog, start, sets + [g], picks + [p])
  {
    var sets', picks' := sets + [g], picks + [p];
    forall i | 0 <= i < |picks'|
      ensures DrawnAt(catalog, start, sets', picks', i)
    {
      if i < |picks| {
        assert DrawnAt(catalog, start, sets, picks, i);
      }
      var m := catalog[picks'[i].index].moves;
      LastDrawPrefix(catalog, picks, [p], m, i);
      var j := LastDraw(catalog, picks, m, i);
      if j >= 0 {
        assert sets'[j] == sets[j];
      }
    }
  }

  /** One more pick keeps `MovesLeft`: it rewrites its record's array, which
      another pick may have drawn from before; that array then held only that
      pick's (at most four) moves, so the new draw hands back the same moves. */
  lemma MovesLeftExtend(catalog: seq<SetData>, start: map<MoveList, seq<MoveSlot>>,
                        now: map<MoveList, seq<MoveSlot>>, now': map<MoveList, seq<MoveSlot>>,
                        sets: seq<GeneratedSet>, picks: seq<Pick>, g: GeneratedSet, p: Pick)
    requires MovesLeft(catalog, start, now, sets, picks)
    requires forall i :: 0 <= i < |sets| ==> |sets[i].moves| <= 4
    requires p.index < |catalog|
    requires catalog[p.index].moves in now && p.before == now[catalog[p.index].moves]
    requires forall m :: m in now ==> m in now' && (m != catalog[p.index].moves ==> now'[m] == now[m])
    requires forall m :: m in now' ==> m in now
    requires now'[catalog[p.index].moves] == AsSlots(g.moves)
    requires |g.moves| == Min(|p.before|, 4) && MovesFrom(p.kept, p.before, g.moves)
    ensures MovesLeft(catalog, start, now', sets + [g], picks + [p])
  {
    var sets', picks' := sets + [g], picks + [p];
    var mine := catalog[p.index].moves;
    forall i | 0 <= i < |sets'|
      ensures picks'[i].index < |catalog| && catalog[picks'[i].index].moves in now'
      ensures now'[catalog[picks'[i].index].moves] == AsSlots(sets'[i].moves)
    {
      if i < |sets| {
        StillDrawn(catalog, now, now', sets[i], picks[i], g, p);
      }
    }
    TouchedExtend(catalog, picks, p);
    DrawsHeld(catalog, start, now, sets, picks, p);
    DrewFromExtend(catalog, start, sets, picks, g, p);
  }

  /** An earlier set's array still holds its moves after pick `p` drew `g`: either
      `p` drew from another array, or the array held only those (at most four)
      moves, and the new draw hands them back. */
  lemma StillDrawn(catalog: seq<SetData>, now: map<MoveList, seq<MoveSlot>>, now': map<MoveList, seq<MoveSlot>>,
                   s: GeneratedSet, q: Pick, g: GeneratedSet, p: Pick)
    requires q.index < |catalog| && p.index < |catalog|
    requires catalog[q.index].moves in now && now[catalog[q.index].moves] == AsSlots(s.moves) && |s.moves| <= 4
    requires catalog[p.index].moves in now && p.before == now[catalog[p.index].moves]
    requires forall m :: m in now ==> m in now' && (m != catalog[p.index].moves ==> now'[m] == now[m])
    requires now'[catalog[p.index].moves] == AsSlots(g.moves)
    requires |g.moves| == Min(|p.before|, 4) && MovesFrom(p.kept, p.before, g.moves)
    ensures catalog[q.index].moves in now' && now'[catalog[q.index].moves] == AsSlots(s.moves)
  {
    if catalog[q.index].moves == catalog[p.index].moves {
      ResolvedStays(p.kept, p.before, g.moves);
    }
  }

  /** One more pick adds its record's array to `Touched`. */
  lemma TouchedExtend(catalog: seq<SetData>, picks: seq<Pick>, p: Pick)
    requires p.index < |catalog|
    ensures Touched(catalog, picks + [p]) == Touched(catalog, picks) + {catalog[p.index].moves}
  {
    var picks' := picks + [p];
    assert forall i :: 0 <= i < |picks| ==> picks'[i] == picks[i];
    assert picks'[|picks|] == p;
  }

  /** Because `generateMoves` rewrites the record's own array, two sets drawn
      from records sharing one `moves` array (the same record drawn under two
      species keys, through `startsWith`) have the same moves. */
  lemma RedrawnSameMoves(catalog: seq<SetData>, start: map<MoveList, seq<MoveSlot>>, now: map<MoveList, seq<MoveSlot>>,
                         sets: seq<GeneratedSet>, picks: seq<Pick>, i: nat, j: nat)
    requires MovesLeft(catalog, start, now, sets, picks) && i < |sets| && j < |sets|
    requires catalog[picks[i].index].moves == catalog[picks[j].index].moves
    ensures sets[i].moves == sets[j].moves
  {
    var a, b := sets[i].moves, sets[j].moves;
    assert AsSlots(a) == AsSlots(b);
    forall k | 0 <= k < |a|
      ensures a[k] == b[k]
    {
      assert AsSlots(a)[k] == Move(a[k]) && AsSlots(b)[k] == Move(b[k]);
    }
  }

  /** A set drawn from an array that no earlier set drew from resolves that
      array as it was at `start`; one drawn from an array an earlier set drew
      from resolves that set's moves. */
  lemma DrawnFromStart(catalog: seq<SetData>, start: map<MoveList, seq<MoveSlot>>, now: map<MoveList, seq<MoveSlot>>,
                       sets: seq<GeneratedSet>, picks: seq<Pick>, i: nat)
    requires MovesLeft(catalog, start, now, sets, picks) && i < |sets|
    ensures picks[i].index < |catalog|
    ensures (forall k :: 0 <= k < i ==>
               picks[k].index < |catalog| && catalog[picks[k].index].moves != catalog[picks[i].index].moves) ==>
      catalog[picks[i].index].moves in start && picks[i].before == start[catalog[picks[i].index].moves]
    ensures forall k ::
      0 <= k < i && picks[k].index < |catalog| && catalog[picks[k].index].moves == catalog[picks[i].index].moves ==>
        picks[i].before == AsSlots(sets[k].moves)
  {
    assert DrawnAt(catalog, start, sets, picks, i);
    var m := catalog[picks[i].index].moves;
    var j := LastDraw(catalog, picks, m, i);
    LastDrawLast(catalog, picks, m, i);
    forall k | 0 <= k < i && picks[k].index < |catalog| && catalog[picks[k].index].moves == m
      ensures picks[i].before == AsSlots(sets[k].moves)
    {
      RedrawnSameMoves(catalog, start, now, sets, picks, j, k);
    }
  }

  // ---------------------------------------------------------------------------
  // Building

  /** `sets.push(generatePokemon(req, species, usedItems))`: on success the team
      grows by the new set and keeps both clauses and every slot's promise. */
  method Push(format: Format, draft: Draft, catalog: seq<SetData>, req: Requirement, retries: nat,
              sets: seq<GeneratedSet>, ghost picks: seq<Pick>, ghost reqs: seq<Requirement>,
              ghost species0: set<string>, ghost used0: seq<string>, ghost start: map<MoveList, seq<MoveSlot>>)
    returns (r: Result<seq<GeneratedSet>>, ghost picks': seq<Pick>)
    requires CatalogWellFormed(catalog)
    requires Progress(format, catalog, species0, used0, start, draft.species, draft.usedItems, Slots(catalog), sets, picks, reqs)
    requires SlotAsks(format, Subjects(sets), Available(catalog, draft.species), req)
    modifies draft, MoveLists(catalog)
    ensures CatalogWellFormed(catalog)
    ensures r.Err? ==> r.error != UndefinedSet
    ensures r.Ok? ==> |r.value| == |sets| + 1 && r.value[..|sets|] == sets
    ensures r.Ok? ==> Progress(format, catalog, species0, used0, start, draft.species, draft.usedItems, Slots(catalog),
                               r.value, picks', reqs + [req])
  {
    ghost var species1, used1, now := draft.species, draft.usedItems, Slots(catalog);
    var g, p := draft.GeneratePokemon(req, catalog, retries);
    if g.Err? {
      return Err(g.error), picks;
    }
    r := Ok(sets + [g.value]);
    picks' := picks + [p];
    ghost var now', mine := Slots(catalog), catalog[p.index].moves;
    assert catalog[p.index] in catalog;
    assert mine in MoveLists(catalog);
    assert mine in now && now[mine] == p.before;
    assert mine in now' && now'[mine] == AsSlots(g.value.moves);
    assert forall m :: m in now ==> m in now' && (m != mine ==> now'[m] == now[m]);
    assert forall m :: m in now' ==> m in now;
    PushProgress(format, catalog, species0, used0, start, sets, picks, reqs, req,
                 species1, used1, now, draft.species, draft.usedItems, now', g.value, p);
    assert (sets + [g.value])[..|sets|] == sets;
  }

  /** What the team built so far guarantees: both clauses with the draft state
      `species`, `used` that they leave, every slot's promise, every set drawn
      from a record that passed what its slot asked for, and the move arrays
      `now` accounted for against `start`. */
  ghost predicate Progress(format: Format, catalog: seq<SetData>, species0: set<string>, used0: seq<string>,
                           start: map<MoveList, seq<MoveSlot>>, species: set<string>, used: seq<string>,
                           now: map<MoveList, seq<MoveSlot>>, sets: seq<GeneratedSet>, picks: seq<Pick>,
                           reqs: seq<Requirement>) {
    Drafted(catalog, species0, used0, species, used, sets, picks) && TeamSoFar(format, sets) &&
    Asked(format, catalog, species0, sets, picks, reqs) && MovesLeft(catalog, start, now, sets, picks)
  }

  /** `Progress` after one more pick: the draft (`species1`, `used1`) and move
      arrays (`now`) before, and (`species2`, `used2`, `now'`) after, a successful
      `generatePokemon` for `req` that drew `g` through `p`. */
  lemma PushProgress(format: Format, catalog: seq<SetData>, species0: set<string>, used0: seq<string>,
                     start: map<MoveList, seq<MoveSlot>>, sets: seq<GeneratedSet>, picks: seq<Pick>,
                     reqs: seq<Requirement>, req: Requirement,
                     species1: set<string>, used1: seq<string>, now: map<MoveList, seq<MoveSlot>>,
                     species2: set<string>, used2: seq<string>, now': map<MoveList, seq<MoveSlot>>,
                     g: GeneratedSet, p: Pick)
    requires Progress(format, catalog, species0, used0, start, species1, used1, now, sets, picks, reqs)
    requires SlotAsks(format, Subjects(sets), Available(catalog, species1), req)
    requires p.index < |catalog| && p.key != "" && p.key in species1 && StartsWith(catalog[p.index].pokemon, p.key)
    requires Test(req, SubjectOf(catalog[p.index])) && FromRecord(g, catalog[p.index])
    requires |g.moves| == Min(|p.before|, 4) && MovesFrom(p.kept, p.before, g.moves) && Exported(g)
    requires species2 == species1 - {p.key} && used2 == used1 + [g.item] && g.item !in used1
    requires catalog[p.index].moves in now
    requires forall m :: m in now ==> m in now' && (m != catalog[p.index].moves ==> now'[m] == now[m])
    requires forall m :: m in now' ==> m in now
    requires p.before == now[catalog[p.index].moves] && now'[catalog[p.index].moves] == AsSlots(g.moves)
    ensures Progress(format, catalog, species0, used0, start, species2, used2, now', sets + [g], picks + [p], reqs + [req])
  {
    PushDraft(format, catalog, species0, used0, sets, picks, req, species1, used1, species2, used2, g, p);
    AskedExtend(format, catalog, species0, sets, picks, reqs, g, p, req);
    PushMoves(catalog, species0, used0, start, sets, picks, now, now', g, p);
  }

  /** The clauses and the slot promises after one more pick: the draft before
      (`species1`, `used1`) and after (`species2`, `used2`) a successful
      `generatePokemon` that drew `g` through `p`. */
  lemma PushDraft(format: Format, catalog: seq<SetData>, species0: set<string>, used0: seq<string>,
                  sets: seq<GeneratedSet>, picks: seq<Pick>, req: Requirement,
                  species1: set<string>, used1: seq<string>, species2: set<string>, used2: seq<string>,
                  g: GeneratedSet, p: Pick)
    requires Drafted(catalog, species0, used0, species1, used1, sets, picks) && TeamSoFar(format, sets)
    requires SlotAsks(format, Subjects(sets), Available(catalog, species1), req)
    requires p.index < |catalog| && p.key != "" && p.key in species1 && StartsWith(catalog[p.index].pokemon, p.key)
    requires Test(req, SubjectOf(catalog[p.index])) && FromRecord(g, catalog[p.index])
    requires |g.moves| == Min(|p.before|, 4) && MovesFrom(p.kept, p.before, g.moves) && Exported(g)
    requires species2 == species1 - {p.key} && used2 == used1 + [g.item] && g.item !in used1
    ensures Drafted(catalog, species0, used0, species2, used2, sets + [g], picks + [p])
    ensures TeamSoFar(format, sets + [g])
  {
    assert Drawn(catalog, species0, g, p);
    SlotAsksFact(format, sets, Available(catalog, species1), req, SubjectOf(catalog[p.index]));
    SlotFactRoles(format, sets, SubjectOf(catalog[p.index]), SubjectOfPick(g));
    TeamSoFarExtend(format, sets, g);
    DraftedExtend(catalog, species0, used0, sets, picks, g, p);
  }

  /** The move arrays after one more pick, on snapshots before (`now`) and after
      (`now'`) a successful `generatePokemon` that drew `g` through `p`. */
  lemma PushMoves(catalog: seq<SetData>, species0: set<string>, used0: seq<string>,
                  start: map<MoveList, seq<MoveSlot>>, sets: seq<GeneratedSet>, picks: seq<Pick>,
                  now: map<MoveList, seq<MoveSlot>>, now': map<MoveList, seq<MoveSlot>>, g: GeneratedSet, p: Pick)
    requires FairTeam(catalog, species0, used0, sets, picks) && MovesLeft(catalog, start, now, sets, picks)
    requires p.index < |catalog| && catalog[p.index].moves in now
    requires forall m :: m in now ==> m in now' && (m != catalog[p.index].moves ==> now'[m] == now[m])
    requires forall m :: m in now' ==> m in now
    requires p.before == now[catalog[p.index].moves] && now'[catalog[p.index].moves] == AsSlots(g.moves)
    requires |g.moves| == Min(|p.before|, 4) && MovesFrom(p.kept, p.before, g.moves)
    ensures MovesLeft(catalog, start, now', sets + [g], picks + [p])
  {
    forall i | 0 <= i < |sets|
      ensures |sets[i].moves| <= 4
    {
      assert Drawn(catalog, species0, sets[i], picks[i]);
    }
    MovesLeftExtend(catalog, start, now, now', sets, picks, g, p);
  }

  /** One more pick keeps both clauses when its key was still free and its item
      unused. */
  lemma DraftedExtend(catalog: seq<SetData>, species0: set<string>, used0: seq<string>,
                      sets: seq<GeneratedSet>, picks: seq<Pick>, g: GeneratedSet, p: Pick)
    requires FairTeam(catalog, species0, used0, sets, picks)
    requires Drawn(catalog, species0, g, p) && p.key !in Keys(picks) && g.item !in used0 + Items(sets)
    ensures FairTeam(catalog, species0, used0, sets + [g], picks + [p])
    ensures Keys(picks + [p]) == Keys(picks) + {p.key}
    ensures used0 + Items(sets + [g]) == used0 + Items(sets) + [g.item]
  {
    AllDrawnExtend(catalog, species0, sets, picks, g, p);
    KeysApartExtend(picks, p);
    ItemsAppend(used0, sets, g);
    DistinctAppend(used0 + Items(sets), g.item);
  }

  /** The leads: the `switch` of generator.ts:223-252, a restricted lead and an
      offensive one, or only the offensive one in Series 9. */
  method BuildLeads(format: Format, catalog: seq<SetData>, draft: Draft, retries: nat,
                    ghost species0: set<string>, ghost used0: seq<string>, ghost start: map<MoveList, seq<MoveSlot>>)
    returns (r: Result<seq<GeneratedSet>>, ghost picks: seq<Pick>, ghost reqs: seq<Requirement>)
    requires CatalogWellFormed(catalog)
    requires Progress(format, catalog, species0, used0, start, draft.species, draft.usedItems, Slots(catalog), [], [], [])
    modifies draft, MoveLists(catalog)
    ensures CatalogWellFormed(catalog)
    ensures r.Err? ==> r.error != UndefinedSet
    ensures r.Ok? ==> |r.value| == Lead(format)
    ensures r.Ok? ==> Progress(format, catalog, species0, used0, start, draft.species, draft.usedItems, Slots(catalog),
                               r.value, picks, reqs)
  {
    var sets: seq<GeneratedSet> := [];
    picks, reqs := [], [];
    if format != Series9 {
      var step;
      step, picks := Push(format, draft, catalog, RestrictedLead(), retries, sets, picks, reqs, species0, used0, start);
      if step.Err? { return Err(step.error), picks, reqs; }
      sets, reqs := step.value, reqs + [RestrictedLead()];
    }
    r, picks := Push(format, draft, catalog, OffensiveLead(), retries, sets, picks, reqs, species0, used0, start);
    reqs := reqs + [OffensiveLead()];
  }

  /** The slots before the third: the leads and the second slot
      (generator.ts:223-279). */
  method BuildFirst(format: Format, catalog: seq<SetData>, draft: Draft, retries: nat,
                    ghost species0: set<string>, ghost used0: seq<string>, ghost start: map<MoveList, seq<MoveSlot>>)
    returns (r: Result<seq<GeneratedSet>>, ghost picks: seq<Pick>, ghost reqs: seq<Requirement>)
    requires CatalogWellFormed(catalog)
    requires Progress(format, catalog, species0, used0, start, draft.species, draft.usedItems, Slots(catalog), [], [], [])
    modifies draft, MoveLists(catalog)
    ensures CatalogWellFormed(catalog)
    ensures r.Err? ==> r.error != UndefinedSet
    ensures r.Ok? ==> |r.value| == Lead(format) + 1
    ensures r.Ok? ==> Progress(format, catalog, species0, used0, start, draft.species, draft.usedItems, Slots(catalog),
                               r.value, picks, reqs)
  {
    var step;
    step, picks, reqs := BuildLeads(format, catalog, draft, retries, species0, used0, start);
    if step.Err? { return Err(step.error), picks, reqs; }
    var sets := step.value;
    var second := SecondSlot(format, Subjects(sets));
    r, picks := Push(format, draft, catalog, second, retries, sets, picks, reqs, species0, used0, start);
    reqs := reqs + [second];
  }

  /** The fifth and sixth slots (generator.ts:296-504). */
  method BuildLast(format: Format, catalog: seq<SetData>, draft: Draft, retries: nat,
                   sets: seq<GeneratedSet>, ghost picks: seq<Pick>, ghost reqs: seq<Requirement>,
                   ghost species0: set<string>, ghost used0: seq<string>, ghost start: map<MoveList, seq<MoveSlot>>)
    returns (r: Result<seq<GeneratedSet>>, ghost picks': seq<Pick>, ghost reqs': seq<Requirement>)
    requires CatalogWellFormed(catalog) && |sets| == Lead(format) + 3
    requires Progress(format, catalog, species0, used0, start, draft.species, draft.usedItems, Slots(catalog), sets, picks, reqs)
    modifies draft, MoveLists(catalog)
    ensures CatalogWellFormed(catalog)
    ensures r.Err? ==> r.error != UndefinedSet
    ensures r.Ok? ==> Lead(format) + 4 <= |r.value| <= Lead(format) + 5
    ensures r.Ok? ==> Progress(format, catalog, species0, used0, start, draft.species, draft.usedItems, Slots(catalog),
                               r.value, picks', reqs')
  {
    var team := sets;
    picks', reqs' := picks, reqs;
    var available := Available(catalog, draft.species);
    var fifth := FifthSlot(Subjects(team), available);
    if fifth.Some? {
      var step;
      step, picks' := Push(format, draft, catalog, fifth.value, retries, team, picks', reqs', species0, used0, start);
      if step.Err? { return Err(step.error), picks', reqs'; }
      team, reqs' := step.value, reqs' + [fifth.value];
    }

    var sixth := SixthSlot(Subjects(team));
    r, picks' := Push(format, draft, catalog, sixth, retries, team, picks', reqs', species0, used0, start);
    reqs' := reqs' + [sixth];
  }

  /** Everything of `generate` before the shuffle (generator.ts:219-504). */
  method Build(format: Format, catalog: seq<SetData>, draft: Draft, retries: nat)
    returns (r: Result<seq<GeneratedSet>>, ghost picks: seq<Pick>, ghost reqs: seq<Requirement>)
    requires CatalogWellFormed(catalog) && Distinct(draft.usedItems)
    modifies draft, MoveLists(catalog)
    ensures CatalogWellFormed(catalog)
    ensures r.Err? ==> r.error != UndefinedSet
    ensures r.Ok? ==> Progress(format, catalog, old(draft.species), old(draft.usedItems), old(Slots(catalog)),
                               draft.species, draft.usedItems, Slots(catalog), r.value, picks, reqs)
    ensures r.Ok? ==> Lead(format) + 4 <= |r.value| <= Lead(format) + 5
  {
    ghost var species0, used0, start := draft.species, draft.usedItems, Slots(catalog);
    assert used0 + Items([]) == used0;
    var step;
    step, picks, reqs := BuildFirst(format, catalog, draft, retries, species0, used0, start);
    if step.Err? { return Err(step.error), picks, reqs; }
    var sets := step.value;

    // The two random slots (generator.ts:281-293).
    var i := 0;
    while i < 2
      invariant 0 <= i <= 2 && |sets| == Lead(format) + 1 + i
      invariant CatalogWellFormed(catalog)
      invariant Progress(format, catalog, species0, used0, start, draft.species, draft.usedItems, Slots(catalog), sets, picks, reqs)
    {
      var random := RandomSlot(Subjects(sets));
      step, picks := Push(format, draft, catalog, random, retries, sets, picks, reqs, species0, used0, start);
      if step.Err? { return Err(step.error), picks, reqs; }
      sets, reqs := step.value, reqs + [random];
      i := i + 1;
    }

    r, picks, reqs := BuildLast(format, catalog, draft, retries, sets, picks, reqs, species0, used0, start);
  }

  /** Taking the element at `k` out of `s` leaves the rest of its multiset. */
  lemma RemoveAt(s: seq<GeneratedSet>, k: nat)
    requires k < |s|
    ensures multiset(s[..k] + s[k + 1..]) + multiset{s[k]} == multiset(s)
  {
    assert s == s[..k] + [s[k]] + s[k + 1..];
  }

  /** The production shuffle (generator.ts:510-516): six times, move a random
      remaining set to the result. Past the end of the team the source pushes
      `undefined`, and reading its export fails; with seven sets one is left out. */
  method Shuffle(sets: seq<GeneratedSet>) returns (r: Result<seq<GeneratedSet>>)
    ensures r.Ok? <==> |sets| >= 6
    ensures r.Err? ==> r.error == UndefinedSet
    ensures r.Ok? ==> |r.value| == 6 && multiset(r.value) <= multiset(sets)
    ensures r.Ok? && |sets| == 6 ==> multiset(r.value) == multiset(sets)
  {
    var remaining := sets;
    var shuffled: seq<GeneratedSet> := [];
    var hole := false;
    for i := 0 to 6
      invariant multiset(shuffled) + multiset(remaining) == multiset(sets)
      invariant |shuffled| == Min(i, |sets|) && |remaining| == |sets| - |shuffled|
      invariant hole <==> i > |sets|
    {
      if remaining == [] {
        hole := true;
      } else {
        var k := RandomBelow(|remaining|);
        RemoveAt(remaining, k);
        shuffled := shuffled + [remaining[k]];
        remaining := remaining[..k] + remaining[k + 1..];
      }
    }
    if hole {
      return Err(UndefinedSet);
    }
    r := Ok(shuffled);
  }

  /** `parts.join(sep)`. */
  function Join(parts: seq<string>, sep: string): string
    decreases |parts|
  {
    if parts == [] then ""
    else if |parts| == 1 then parts[0]
    else parts[0] + sep + Join(parts[1..], sep)
  }

  /** Joining one more part adds the separator and the part at the end: `join`
      read as a left fold, which `Join` computes from the right. */
  lemma {:induction false} JoinAppend(parts: seq<string>, part: string, sep: string)
    requires parts != []
    ensures Join(parts + [part], sep) == Join(parts, sep) + sep + part
    decreases |parts|
  {
    if |parts| == 1 {
      assert (parts + [part])[1..] == [part];
    } else {
      JoinAppend(parts[1..], part, sep);
      assert (parts + [part])[1..] == parts[1..] + [part];
    }
  }

  /** `sets.map(set => set.export).join('\n\n')`, each export its lines joined
      by newlines. */
  function TeamText(sets: seq<GeneratedSet>): string {
    Join(seq(|sets|, i requires 0 <= i < |sets| => Join(sets[i].exportText, "\n")), "\n\n")
  }

  /** What `generate` guarantees of the team it built on a fresh draft: both
      clauses over the catalog's species keys, every slot's promise, every set
      drawn from a record that passed what its slot asked for, the move arrays
      `now` accounted for against `start`, and six or seven sets in Series 8 and
      10, five or six in Series 9. */
  ghost predicate Guarantees(format: Format, catalog: seq<SetData>, start: map<MoveList, seq<MoveSlot>>,
                             now: map<MoveList, seq<MoveSlot>>, sets: seq<GeneratedSet>, picks: seq<Pick>,
                             reqs: seq<Requirement>) {
    FairTeam(catalog, SpeciesKeys(catalog), [], sets, picks) && TeamSoFar(format, sets) &&
    Asked(format, catalog, SpeciesKeys(catalog), sets, picks, reqs) && MovesLeft(catalog, start, now, sets, picks) &&
    Lead(format) + 4 <= |sets| <= Lead(format) + 5
  }
  /** Every set of a fairly drawn team exports the template filled with its own
      fields: its record's name and the item it drew on the first line, then its
      ability, the level, the optional shiny line, its spread and its four move
      lines, `undefined` for each move missing. */
  lemma TeamExports(catalog: seq<SetData>, species0: set<string>, used0: seq<string>,
                    sets: seq<GeneratedSet>, picks: seq<Pick>)
    requires FairTeam(catalog, species0, used0, sets, picks)
    ensures forall i :: 0 <= i < |sets| ==>
      picks[i].index < |catalog| && ExportOf(sets[i], catalog[picks[i].index].pokemon)
  {
    forall i | 0 <= i < |sets|
      ensures picks[i].index < |catalog| && ExportOf(sets[i], catalog[picks[i].index].pokemon)
    {
      assert Drawn(catalog, species0, sets[i], picks[i]);
      SetExport(sets[i]);
    }
  }

  /** Sets taken from a fairly drawn team, as the shuffle takes them, export the
      template filled with their own fields. */
  lemma ShownExports(catalog: seq<SetData>, species0: set<string>, used0: seq<string>,
                     sets: seq<GeneratedSet>, picks: seq<Pick>, shown: seq<GeneratedSet>)
    requires FairTeam(catalog, species0, used0, sets, picks) && multiset(shown) <= multiset(sets)
    ensures forall i :: 0 <= i < |shown| ==> ExportOf(shown[i], shown[i].pokemon)
  {
    forall i | 0 <= i < |shown|
      ensures ExportOf(shown[i], shown[i].pokemon)
    {
      assert shown[i] in multiset(sets);
      var k :| 0 <= k < |sets| && sets[k] == shown[i];
      assert Drawn(catalog, species0, sets[k], picks[k]);
      SetExport(sets[k]);
    }
  }

  /** The lines of `g`'s export, with `name` on the first. */
  ghost predicate ExportOf(g: GeneratedSet, name: string) {
    var lines := g.exportText;
    8 <= |lines| <= 9 &&
    lines[0] == name + " @ " + g.item && lines[1] == "Ability: " + g.ability && lines[2] == "Level: 50" &&
    (|lines| == 9 ==> lines[3] == "Shiny: Yes") &&
    lines[|lines| - 5] == g.spread &&
    forall k :: 0 <= k < 4 ==> lines[|lines| - 4 + k] == "- " + MoveText(g.moves, k)
  }

  /** A set whose export is the filled template has the lines of `ExportOf`. */
  lemma SetExport(g: GeneratedSet)
    requires Exported(g)
    ensures ExportOf(g, g.pokemon)
  {
    var shiny :| g.exportText == ExportLines(g.pokemon, g.item, g.ability, g.spread, g.moves, shiny);
    ExportShape(g.pokemon, g.item, g.ability, g.spread, g.moves, shiny);
    ExportShape(g.pokemon, g.item, g.ability, g.spread, g.moves, false);
  }



  /** The team of `generate(format)` before the shuffle, built on a fresh draft:
      every species key of the catalog free and no item used (generator.ts:218-504).
      The records' moves arrays are changed in place and stay changed. */
  method Team(format: Format, catalog: seq<SetData>, retries: nat)
    returns (r: Result<seq<GeneratedSet>>, ghost picks: seq<Pick>, ghost reqs: seq<Requirement>)
    requires CatalogWellFormed(catalog)
    modifies MoveLists(catalog)
    ensures CatalogWellFormed(catalog)
    ensures r.Err? ==> r.error != UndefinedSet
    ensures r.Ok? ==> Guarantees(format, catalog, old(Slots(catalog)), Slots(catalog), r.value, picks, reqs)
  {
    ghost var start := Slots(catalog);
    var draft := new Draft(catalog);
    assert Slots(catalog) == start;
    r, picks, reqs := Build(format, catalog, draft, retries);
  }

  /** `generate(format)`. The catalog is a parameter (the source loads it once);
      its records' moves arrays are changed in place and stay changed.
      `production` stands for `NODE_ENV === 'production'`. Once the team is built,
      `built` is the team as generated, `picks` what each set was drawn from and
      `reqs` the requirement each slot asked for, and `now` what the move arrays
      hold at the end; on success `shown` holds the sets whose exports make up
      the text. */
  method Generate(format: Format, catalog: seq<SetData>, production: bool, retries: nat)
    returns (r: Result<string>, ghost built: seq<GeneratedSet>, ghost shown: seq<GeneratedSet>,
             ghost picks: seq<Pick>, ghost reqs: seq<Requirement>, ghost now: map<MoveList, seq<MoveSlot>>)
    requires CatalogWellFormed(catalog)
    modifies MoveLists(catalog)
    ensures CatalogWellFormed(catalog)
    ensures forall m :: m in MoveLists(catalog) ==> m in now && m.slots == now[m]
    ensures r.Ok? || r.error == UndefinedSet ==> Guarantees(format, catalog, old(Slots(catalog)), now, built, picks, reqs)
    ensures r.Ok? ==> r.value == TeamText(shown)
    ensures r.Ok? && !production ==> shown == built
    ensures r.Ok? && production ==> |shown| == 6 && multiset(shown) <= multiset(built)
    ensures r.Err? && r.error == UndefinedSet ==> production && |built| < 6
    ensures r.Err? && r.error != UndefinedSet ==> built == []
    ensures built != [] ==> (r.Ok? <==> !production || |built| >= 6)
    ensures r.Ok? ==> forall i :: 0 <= i < |shown| ==> ExportOf(shown[i], shown[i].pokemon)
  {
    var team;
    team, picks, reqs := Team(format, catalog, retries);
    now := Slots(catalog);
    if team.Err? {
      return Err(team.error), [], [], picks, reqs, now;
    }
    var sets := team.value;
    built := sets;
    if production {
      var shuffled := Shuffle(sets);
      if shuffled.Err? {
        return Err(shuffled.error), built, [], picks, reqs, now;
      }
      sets := shuffled.value;
    }
    shown := sets;
    ShownExports(catalog, SpeciesKeys(catalog), [], built, picks, shown);
    r := Ok(TeamText(sets));
  }
}
