/** Facts derived from the team built so far: `findWeather` and
    `findPolicyTypes` (src/generator.ts:572-594). */
module Queries {
  import opened Basics
  import opened Catalog

  ghost predicate HasWeatherRole(x: Subject) {
    exists k :: 0 <= k < |x.roles| && IsWeatherRole(x.roles[k])
  }

  /** `set.roles.find(role => role[1] === 'weather')` (generator.ts:574). */
  function WeatherRole(roles: seq<RoleTuple>): Option<RoleTuple> {
    if roles == [] then Undefined
    else if IsWeatherRole(roles[0]) then Some(roles[0])
    else WeatherRole(roles[1..])
  }

  /** `findWeather(sets)`: the detail `role[2]` of the first weather role of the
      first set that has one; `Undefined` for `null` and for a missing detail. */
  function FindWeather(team: seq<Subject>): Option<string> {
    if team == [] then Undefined
    else match WeatherRole(team[0].roles)
      case Some(role) => At(role, 2)
      case Undefined => FindWeather(team[1..])
  }

  /** Role `k` of set `j` is the weather role `findWeather` stops at. */
  ghost predicate FirstWeather(team: seq<Subject>, j: nat, k: nat) {
    j < |team| && k < |team[j].roles| && IsWeatherRole(team[j].roles[k]) &&
    (forall j' :: 0 <= j' < j ==> !HasWeatherRole(team[j'])) &&
    (forall k' :: 0 <= k' < k ==> !IsWeatherRole(team[j].roles[k']))
  }

  lemma {:induction false} WeatherRoleSpec(roles: seq<RoleTuple>)
    ensures WeatherRole(roles).Undefined? <==> forall k :: 0 <= k < |roles| ==> !IsWeatherRole(roles[k])
    ensures WeatherRole(roles).Some? ==>
      exists k :: 0 <= k < |roles| && roles[k] == WeatherRole(roles).value &&
        IsWeatherRole(roles[k]) && forall k' :: 0 <= k' < k ==> !IsWeatherRole(roles[k'])
  {
    if roles != [] && !IsWeatherRole(roles[0]) {
      WeatherRoleSpec(roles[1..]);
      assert forall k :: 1 <= k < |roles| ==> roles[k] == roles[1..][k - 1];
      if WeatherRole(roles).Some? {
        var k :| 0 <= k < |roles[1..]| && roles[1..][k] == WeatherRole(roles).value &&
          IsWeatherRole(roles[1..][k]) && forall k' :: 0 <= k' < k ==> !IsWeatherRole(roles[1..][k']);
        assert roles[k + 1] == roles[1..][k];
        assert forall k' :: 1 <= k' < k + 1 ==> roles[k'] == roles[1..][k' - 1];
      }
    }
  }

  /** `findWeather` returns `null` when no set has a weather role, and otherwise
      the detail of the first weather role of the first set that has one. */
  lemma {:induction false} FindWeatherSpec(team: seq<Subject>)
    ensures (forall j :: 0 <= j < |team| ==> !HasWeatherRole(team[j])) ==> FindWeather(team) == Undefined
    ensures (exists j :: 0 <= j < |team| && HasWeatherRole(team[j])) ==>
      exists j: nat, k: nat :: FirstWeather(team, j, k) && FindWeather(team) == At(team[j].roles[k], 2)
  {
    if team != [] {
      var roles := team[0].roles;
      WeatherRoleSpec(roles);
      FindWeatherSpec(team[1..]);
      assert forall j :: 1 <= j < |team| ==> team[j] == team[1..][j - 1];
      if WeatherRole(roles).Some? {
        var k :| 0 <= k < |roles| && roles[k] == WeatherRole(roles).value &&
          IsWeatherRole(roles[k]) && forall k' :: 0 <= k' < k ==> !IsWeatherRole(roles[k']);
        assert FirstWeather(team, 0, k);
      } else if exists j :: 0 <= j < |team| && HasWeatherRole(team[j]) {
        assert !HasWeatherRole(team[0]);
        var j: nat, k: nat :| FirstWeather(team[1..], j, k) && FindWeather(team[1..]) == At(team[1..][j].roles[k], 2);
        assert FirstWeather(team, j + 1, k);
      }
    }
  }

  /** Once some set of the team has a weather role, adding sets does not change
      what `findWeather` returns: the first weather commitment stays. */
  lemma {:induction false} FindWeatherStable(team: seq<Subject>, more: seq<Subject>)
    requires exists j :: 0 <= j < |team| && HasWeatherRole(team[j])
    ensures FindWeather(team + more) == FindWeather(team)
  {
    WeatherRoleSpec(team[0].roles);
    if WeatherRole(team[0].roles).Undefined? {
      assert !HasWeatherRole(team[0]);
      assert (team + more)[1..] == team[1..] + more;
      assert forall j :: 1 <= j < |team| ==> team[j] == team[1..][j - 1];
      FindWeatherStable(team[1..], more);
    }
  }

  /** The subject has a role `('offense', 'policy', v)`. */
  ghost predicate DeclaresPolicy(x: Subject, v: Option<string>) {
    exists k :: 0 <= k < |x.roles| && IsPolicyRole(x.roles[k]) && At(x.roles[k], 2) == v
  }

  /** The `forEach` of generator.ts:586-590 over one set's roles: `types.add(role[2])`
      for each offense/policy role, where adding a value already present does nothing. */
  function AddPolicyTypes(types: seq<Option<string>>, roles: seq<RoleTuple>): seq<Option<string>>
    decreases |roles|
  {
    if roles == [] then types
    else
      var types' := if IsPolicyRole(roles[0]) && At(roles[0], 2) !in types then types + [At(roles[0], 2)] else types;
      AddPolicyTypes(types', roles[1..])
  }

  /** The outer loop of generator.ts:585-591. */
  function PolicyTypesFrom(types: seq<Option<string>>, team: seq<Subject>): seq<Option<string>>
    decreases |team|
  {
    if team == [] then types else PolicyTypesFrom(AddPolicyTypes(types, team[0].roles), team[1..])
  }

  /** `findPolicyTypes(sets)`: the Set's values in insertion order. */
  function FindPolicyTypes(team: seq<Subject>): seq<Option<string>> {
    PolicyTypesFrom([], team)
  }

  lemma {:induction false} AddPolicyTypesSpec(types: seq<Option<string>>, roles: seq<RoleTuple>)
    requires Distinct(types)
    ensures Distinct(AddPolicyTypes(types, roles))
    ensures forall v :: v in AddPolicyTypes(types, roles) <==>
      v in types || exists k :: 0 <= k < |roles| && IsPolicyRole(roles[k]) && At(roles[k], 2) == v
    decreases |roles|
  {
    if roles != [] {
      var types' := if IsPolicyRole(roles[0]) && At(roles[0], 2) !in types then types + [At(roles[0], 2)] else types;
      AddPolicyTypesSpec(types', roles[1..]);
      assert forall k :: 1 <= k < |roles| ==> roles[k] == roles[1..][k - 1];
    }
  }

  lemma {:induction false} PolicyTypesFromSpec(types: seq<Option<string>>, team: seq<Subject>)
    requires Distinct(types)
    ensures Distinct(PolicyTypesFrom(types, team))
    ensures forall v :: v in PolicyTypesFrom(types, team) <==>
      v in types || exists j :: 0 <= j < |team| && DeclaresPolicy(team[j], v)
    decreases |team|
  {
    if team != [] {
      AddPolicyTypesSpec(types, team[0].roles);
      PolicyTypesFromSpec(AddPolicyTypes(types, team[0].roles), team[1..]);
      assert forall j :: 1 <= j < |team| ==> team[j] == team[1..][j - 1];
    }
  }

  /** `findPolicyTypes` returns pairwise-distinct values, and exactly the details
      of the `('offense', 'policy', _)` roles of the team (`undefined` included). */
  lemma FindPolicyTypesSpec(team: seq<Subject>)
    ensures Distinct(FindPolicyTypes(team))
    ensures forall v :: v in FindPolicyTypes(team) <==> exists j :: 0 <= j < |team| && DeclaresPolicy(team[j], v)
  {
    PolicyTypesFromSpec([], team);
  }
}
