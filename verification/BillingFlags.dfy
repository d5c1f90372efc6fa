/** The exact flag parser of the billing rollout inventory (cmd/witself-control-plane/billing_rollout_inventory.go). */
module BillingFlags {
  import opened Prelude

  datatype FlagError = Incomplete | Unknown | Duplicate(name: string) | NoValue(of: string) | Missing(required: string)

  /** The names at the even places. */
  function Names(args: seq<string>): (names: seq<string>)
    ensures |names| == |args| / 2
    ensures forall i :: 0 <= i < |names| ==> names[i] == args[2 * i]
  {
    seq(|args| / 2, i requires 0 <= i < |args| / 2 => args[2 * i])
  }

  /** The values at the odd places. */
  function Values(args: seq<string>): (values: seq<string>)
    ensures |values| == |args| / 2
    ensures forall i :: 0 <= i < |values| ==> values[i] == args[2 * i + 1]
  {
    seq(|args| / 2, i requires 0 <= i < |args| / 2 => args[2 * i + 1])
  }

  /** The arguments are some ordering of each required name once, each with a non-empty value. */
  predicate Exact(args: seq<string>, required: seq<string>) {
    && |args| % 2 == 0
    && multiset(Names(args)) == multiset(required)
    && "" !in Values(args)
  }

  function Elements(s: seq<string>): set<string> {
    set x | x in s
  }

  lemma {:induction false} DistinctCardinality(s: seq<string>)
    requires NoDup(s)
    ensures |Elements(s)| == |s|
    decreases |s|
  {
    if s != [] {
      var rest := s[..|s| - 1];
      DistinctCardinality(rest);
      assert s == rest + [s[|s| - 1]];
      assert Elements(s) == Elements(rest) + {s[|s| - 1]};
      assert s[|s| - 1] !in rest;
    }
  }

  lemma SubsetOfSameSize(a: set<string>, b: set<string>)
    requires a <= b && |a| == |b|
    ensures a == b
  {
    var rest := b - a;
    assert b == a + rest;
    assert |b| == |a| + |rest|;
  }

  lemma {:induction false} DistinctOnce(s: seq<string>)
    requires NoDup(s)
    ensures forall x :: multiset(s)[x] == if x in s then 1 else 0
    decreases |s|
  {
    if s != [] {
      var rest := s[..|s| - 1];
      DistinctOnce(rest);
      assert s == rest + [s[|s| - 1]];
      assert s[|s| - 1] !in rest;
    }
  }

  /** As many distinct names, all of them required: by counting, none is missing. */
  lemma Pigeonhole(names: seq<string>, required: seq<string>)
    requires NoDup(names) && NoDup(required) && |names| == |required|
    requires forall x :: x in names ==> x in required
    ensures forall x :: x in required ==> x in names
    ensures multiset(names) == multiset(required)
  {
    DistinctCardinality(names);
    DistinctCardinality(required);
    SubsetOfSameSize(Elements(names), Elements(required));
    forall x | x in required ensures x in names {
      assert x in Elements(required);
    }
    DistinctOnce(names);
    DistinctOnce(required);
  }

  lemma {:induction false} OnceIsDistinct(s: seq<string>)
    requires forall x :: multiset(s)[x] <= 1
    ensures NoDup(s)
    decreases |s|
  {
    if s != [] {
      var rest := s[..|s| - 1];
      assert s == rest + [s[|s| - 1]];
      assert multiset(s) == multiset(rest) + multiset{s[|s| - 1]};
      forall x ensures multiset(rest)[x] <= 1 {
        assert multiset(s)[x] <= 1;
      }
      OnceIsDistinct(rest);
      assert multiset(s)[s[|s| - 1]] <= 1;
      assert s[|s| - 1] !in multiset(rest);
    }
  }

  lemma SameBagSameNames(names: seq<string>, required: seq<string>)
    requires NoDup(required) && multiset(names) == multiset(required)
    ensures NoDup(names) && |names| == |required|
    ensures forall x :: x in names ==> x in required
  {
    assert |multiset(names)| == |names| && |multiset(required)| == |required|;
    DistinctOnce(required);
    OnceIsDistinct(names);
    forall x | x in names ensures x in required {
      assert x in multiset(required);
    }
  }

  /** Every pair names an allowed flag, none twice, with a value. */
  predicate Admissible(names: seq<string>, values: seq<string>, required: seq<string>) {
    NoDup(names) && (forall x :: x in names ==> x in required) && "" !in values
  }

  lemma ExactIsAdmissible(args: seq<string>, required: seq<string>)
    requires NoDup(required)
    ensures Exact(args, required) <==> |args| == 2 * |required| && Admissible(Names(args), Values(args), required)
  {
    if Exact(args, required) { SameBagSameNames(Names(args), required); }
    if |args| == 2 * |required| && Admissible(Names(args), Values(args), required) { Pigeonhole(Names(args), required); }
  }

  /** Each name is bound to its own value, and nothing else is. */
  predicate Binds(names: seq<string>, values: seq<string>, bound: map<string, string>)
    requires |names| == |values|
  {
    && bound.Keys == Elements(names)
    && forall i :: 0 <= i < |names| ==> names[i] in bound && bound[names[i]] == values[i]
  }

  method Allowed(required: seq<string>) returns (allowed: set<string>)
    ensures allowed == Elements(required)
  {
    allowed := {};
    for i := 0 to |required|
      invariant allowed == Elements(required[..i])
    {
      assert required[..i + 1] == required[..i] + [required[i]];
      allowed := allowed + {required[i]};
    }
    assert required[..|required|] == required;
  }

  lemma BindsOneMore(names: seq<string>, values: seq<string>, bound: map<string, string>, i: nat)
    requires i < |names| == |values| && Binds(names[..i], values[..i], bound) && names[i] !in names[..i]
    ensures Binds(names[..i + 1], values[..i + 1], bound[names[i] := values[i]])
  {
  }

  /** The loop over the pairs. */
  method TakePairs(names: seq<string>, values: seq<string>, required: seq<string>)
    returns (r: Result<map<string, string>, FlagError>)
    requires |names| == |values|
    ensures r.Ok? <==> Admissible(names, values, required)
    ensures r.Ok? ==> Binds(names, values, r.value)
    ensures r.Err? ==> !r.error.Missing? && !r.error.Incomplete?
  {
    var allowed := Allowed(required);
    var bound: map<string, string> := map[];
    for i := 0 to |names|
      invariant Binds(names[..i], values[..i], bound)
      invariant Admissible(names[..i], values[..i], required)
    {
      assert names[..i + 1] == names[..i] + [names[i]] && values[..i + 1] == values[..i] + [values[i]];
      if names[i] !in allowed { return Err(Unknown); }
      if names[i] in bound {
        assert names[i] in names[..i];
        return Err(Duplicate(names[i]));
      }
      if values[i] == "" { return Err(NoValue(names[i])); }
      BindsOneMore(names, values, bound, i);
      bound := bound[names[i] := values[i]];
    }
    assert names[..|names|] == names && values[..|names|] == values;
    return Ok(bound);
  }

  /**
   Accepts exactly the orderings of the required flags, and hands back each flag's value. Its own
   last loop, over names still missing, never fires.
   */
  method ParseExact(args: seq<string>, required: seq<string>) returns (r: Result<map<string, string>, FlagError>)
    requires NoDup(required)
    ensures r.Ok? <==> Exact(args, required)
    ensures r.Ok? ==> Binds(Names(args), Values(args), r.value) && r.value.Keys == Elements(required)
    ensures r == Err(Incomplete) <==> |args| != 2 * |required|
    ensures r.Err? ==> !r.error.Missing?
  {
    ExactIsAdmissible(args, required);
    if |args| != |required| * 2 { return Err(Incomplete); }
    var names, values := Names(args), Values(args);
    r := TakePairs(names, values, required);
    if r.Err? { return; }
    Pigeonhole(names, required);
    for i := 0 to |required|
    {
      assert required[i] in names;
      var k :| 0 <= k < |names| && names[k] == required[i];
      if required[i] !in r.value || r.value[required[i]] == "" { assert false; }
    }
    assert Elements(names) == Elements(required);
  }
}
