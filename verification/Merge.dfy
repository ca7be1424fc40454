/** Nested dictionary merge, in its two implementations, and the policy forced by `_apply_api`. */
module Merge {
  import opened Prelude
  import opened Json

  type Dict = map<string, Json>
  type Path = seq<string>

  /** The merge as a function: the order in which the override's items are visited does not show. */
  function Merged(a: Dict, b: Dict): Dict
    decreases Obj(b)
  {
    map k | k in a.Keys + b.Keys ::
      if k !in b then a[k]
      else if b[k].Obj? && k in a && a[k].Obj? then Obj(Merged(a[k].fields, b[k].fields))
      else b[k]
  }

  /** The value at a path of keys. */
  function At(j: Json, path: Path): Option<Json> {
    if path == [] then Some(j)
    else if j.Obj? && path[0] in j.fields then At(j.fields[path[0]], path[1..])
    else None
  }

  /** Following the path, the override runs out of keys: it says nothing about it. */
  predicate LeavesAt(b: Dict, path: Path)
    decreases path
  {
    path != [] && (path[0] !in b || (b[path[0]].Obj? && LeavesAt(b[path[0]].fields, path[1..])))
  }

  /** Every leaf of the override wins. */
  lemma {:induction false} OverrideWins(a: Dict, b: Dict, path: Path)
    requires At(Obj(b), path).Some? && !At(Obj(b), path).value.Obj?
    ensures At(Obj(Merged(a, b)), path) == At(Obj(b), path)
    decreases path
  {
    if path != [] {
      var k := path[0];
      if b[k].Obj? && k in a && a[k].Obj? {
        OverrideWins(a[k].fields, b[k].fields, path[1..]);
      }
    }
  }

  /** Everything in the base that the override says nothing about survives. */
  lemma {:induction false} BaseSurvives(a: Dict, b: Dict, path: Path)
    requires LeavesAt(b, path) && At(Obj(a), path).Some?
    ensures At(Obj(Merged(a, b)), path) == At(Obj(a), path)
    decreases path
  {
    var k := path[0];
    if k in b {
      assert a[k].Obj? by {
        assert path[1..] != [];
      }
      BaseSurvives(a[k].fields, b[k].fields, path[1..]);
    }
  }

  /** And nothing else: the leaves of the result are exactly the override's, and those of the base the
      override says nothing about. */
  lemma {:induction false} LeavesComeFromSomewhere(a: Dict, b: Dict, path: Path)
    requires At(Obj(Merged(a, b)), path).Some? && !At(Obj(Merged(a, b)), path).value.Obj?
    ensures var leaf := At(Obj(Merged(a, b)), path);
            At(Obj(b), path) == leaf || (LeavesAt(b, path) && At(Obj(a), path) == leaf)
    decreases path
  {
    if path != [] {
      var k := path[0];
      if k in b && b[k].Obj? && k in a && a[k].Obj? {
        LeavesComeFromSomewhere(a[k].fields, b[k].fields, path[1..]);
      }
    }
  }

  /** Merging an override a second time changes nothing. */
  lemma {:induction false} MergeTwice(a: Dict, b: Dict)
    ensures Merged(Merged(a, b), b) == Merged(a, b)
    decreases Obj(b)
  {
    var m := Merged(a, b);
    forall k | k in m ensures Merged(m, b)[k] == m[k] {
      if k in b && b[k].Obj? {
        if k in a && a[k].Obj? {
          MergeTwice(a[k].fields, b[k].fields);
        } else {
          MergeSelf(b[k].fields);
        }
      }
    }
    assert Merged(m, b).Keys == m.Keys;
  }

  lemma {:induction false} MergeSelf(b: Dict)
    ensures Merged(b, b) == b
    decreases Obj(b)
  {
    forall k | k in b ensures Merged(b, b)[k] == b[k] {
      if b[k].Obj? {
        MergeSelf(b[k].fields);
      }
    }
    assert Merged(b, b).Keys == b.Keys;
  }

  /** `merge_dicts` of the configuration: writes the items of `b` into `a` one by one. */
  method MergeDicts(a: Dict, b: Dict) returns (r: Dict)
    ensures r == Merged(a, b)
    decreases Obj(b)
  {
    r := a;
    var left := b.Keys;
    while left != {}
      invariant left <= b.Keys && r.Keys == a.Keys + (b.Keys - left)
      invariant forall k <- r :: r[k] == if k in b && k !in left then Merged(a, b)[k] else a[k]
      decreases left
    {
      var key :| key in left;
      var value := b[key];
      if value.Obj? && key in r && r[key].Obj? {
        var inner := MergeDicts(r[key].fields, value.fields);
        r := r[key := Obj(inner)];
      } else {
        r := r[key := value];
      }
      left := left - {key};
    }
  }

  /** The inner `_merge` of the admin permissions: tests `base.get(key)` and stores the returned
      dictionary. It computes the same function. */
  method MergePermissions(base: Dict, override: Dict) returns (r: Dict)
    ensures r == Merged(base, override)
    decreases Obj(override)
  {
    r := base;
    var left := override.Keys;
    while left != {}
      invariant left <= override.Keys && r.Keys == base.Keys + (override.Keys - left)
      invariant forall k <- r :: r[k] == if k in override && k !in left then Merged(base, override)[k] else base[k]
      decreases left
    {
      var key :| key in left;
      var present := Get(r, key);
      if override[key].Obj? && present.Some? && present.value.Obj? {
        var merged := MergePermissions(present.value.fields, override[key].fields);
        r := r[key := Obj(merged)];
      } else {
        r := r[key := override[key]];
      }
      left := left - {key};
    }
  }

  // ---------- the forced policy ----------

  const FORCED_LEVEL: Dict := map["statsUserUplink" := Bool(true), "statsUserDownlink" := Bool(true)]
  const FORCED_SYSTEM: Dict :=
    map["statsInboundDownlink" := Bool(false), "statsInboundUplink" := Bool(false),
        "statsOutboundDownlink" := Bool(true), "statsOutboundUplink" := Bool(true)]
  const FORCED_POLICY: Dict :=
    map["levels" := Obj(map["0" := Obj(FORCED_LEVEL)]), "system" := Obj(FORCED_SYSTEM)]

  /** The policy found in the configuration: a dictionary, or text that is parsed, or nothing usable. */
  function CurrentPolicy(policy: Option<Json>, loads: string -> Option<Json>): Json {
    match policy
    case Some(Obj(fields)) => Obj(fields)
    case Some(Str(text)) => loads(text).GetOr(Obj(map[]))
    case _ => Obj(map[])
  }

  /** The policy part of `_apply_api`. Merging into something that is not a dictionary raises. */
  method ApplyPolicy(policy: Option<Json>, loads: string -> Option<Json>) returns (r: Outcome<Dict>)
    ensures var current := CurrentPolicy(policy, loads);
            r == if current.Obj? then Returned(Merged(current.fields, FORCED_POLICY))
                 else if Truthy(current) then Raised else Returned(FORCED_POLICY)
    ensures policy.Some? && policy.value.Obj? ==> r == Returned(Merged(policy.value.fields, FORCED_POLICY))
    ensures policy.Some? && policy.value.Str? ==>
      match loads(policy.value.s)
      case Some(Obj(fields)) => r == Returned(Merged(fields, FORCED_POLICY))
      case Some(Arr(items)) => r == if items == [] then Returned(FORCED_POLICY) else Raised
      case Some(Str(s)) => r == if s == "" then Returned(FORCED_POLICY) else Raised
      case Some(Num(n)) => r == if n == 0 then Returned(FORCED_POLICY) else Raised
      case Some(Bool(b)) => r == if b then Raised else Returned(FORCED_POLICY)
      case _ => r == Returned(FORCED_POLICY)
    ensures policy.None? || (!policy.value.Obj? && !policy.value.Str?) ==> r == Returned(FORCED_POLICY)
  {
    var current := CurrentPolicy(policy, loads);
    if !Truthy(current) {
      if current.Obj? {
        assert Merged(map[], FORCED_POLICY) == FORCED_POLICY;
      }
      return Returned(FORCED_POLICY);
    }
    if !current.Obj? {
      return Raised;
    }
    var merged := MergeDicts(current.fields, FORCED_POLICY);
    return Returned(merged);
  }

  /** For every prior policy that merges at all, the six statistics switches end up as forced and
      everything else in the policy stays as it was. */
  lemma ForcedPolicyHolds(current: Dict)
    ensures var p := Obj(Merged(current, FORCED_POLICY));
            && At(p, ["levels", "0", "statsUserUplink"]) == Some(Bool(true))
            && At(p, ["levels", "0", "statsUserDownlink"]) == Some(Bool(true))
            && At(p, ["system", "statsInboundDownlink"]) == Some(Bool(false))
            && At(p, ["system", "statsInboundUplink"]) == Some(Bool(false))
            && At(p, ["system", "statsOutboundDownlink"]) == Some(Bool(true))
            && At(p, ["system", "statsOutboundUplink"]) == Some(Bool(true))
    ensures forall path: Path :: LeavesAt(FORCED_POLICY, path) && At(Obj(current), path).Some? ==>
              At(Obj(Merged(current, FORCED_POLICY)), path) == At(Obj(current), path)
  {
    ForcedLevel(current, "statsUserUplink");
    ForcedLevel(current, "statsUserDownlink");
    ForcedSystem(current, "statsInboundDownlink");
    ForcedSystem(current, "statsInboundUplink");
    ForcedSystem(current, "statsOutboundDownlink");
    ForcedSystem(current, "statsOutboundUplink");
    forall path: Path | LeavesAt(FORCED_POLICY, path) && At(Obj(current), path).Some?
      ensures At(Obj(Merged(current, FORCED_POLICY)), path) == At(Obj(current), path)
    {
      BaseSurvives(current, FORCED_POLICY, path);
    }
  }

  lemma ForcedLevel(current: Dict, key: string)
    requires key in FORCED_LEVEL
    ensures At(Obj(Merged(current, FORCED_POLICY)), ["levels", "0", key]) == Some(FORCED_LEVEL[key])
  {
    var path := ["levels", "0", key];
    assert path[1..] == ["0", key] && ["0", key][1..] == [key] && [key][1..] == [];
    assert FORCED_POLICY["levels"] == Obj(map["0" := Obj(FORCED_LEVEL)]);
    assert At(Obj(FORCED_LEVEL), [key]) == Some(FORCED_LEVEL[key]);
    assert At(Obj(map["0" := Obj(FORCED_LEVEL)]), ["0", key]) == Some(FORCED_LEVEL[key]);
    OverrideWins(current, FORCED_POLICY, path);
  }

  lemma ForcedSystem(current: Dict, key: string)
    requires key in FORCED_SYSTEM
    ensures At(Obj(Merged(current, FORCED_POLICY)), ["system", key]) == Some(FORCED_SYSTEM[key])
  {
    var path := ["system", key];
    assert path[1..] == [key] && [key][1..] == [];
    assert FORCED_POLICY["system"] == Obj(FORCED_SYSTEM);
    assert At(Obj(FORCED_SYSTEM), [key]) == Some(FORCED_SYSTEM[key]);
    OverrideWins(current, FORCED_POLICY, path);
  }
}
