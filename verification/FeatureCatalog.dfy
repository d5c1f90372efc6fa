/**
 The feature-status catalog (featurestatus/catalog.go): the validator's loops, what they accept, and
 what that fixes about a feature's open gates and readiness.
 */
module FeatureCatalog {
  import opened Prelude

  datatype Implementation = Planned | Specified | Building | Implemented | Retired | OtherImplementation(text: string)

  datatype Rollout = NotStarted | Dark | Limited | General | RolloutNotApplicable | RolloutRetired | OtherRollout(text: string)

  datatype State = Pass | Conditional | Fail | NotApplicable | OtherState(text: string)

  datatype Gate = Gate(state: State, summary: string, evidence: seq<string>)

  datatype Gates = Gates(behavior: Gate, entitlementPolicy: Gate, boundsAbuse: Gate, observability: Gate, recovery: Gate,
                         rolloutCanaries: Gate, docsSupport: Gate)

  datatype OpenGate = OpenGate(id: string, gateIds: seq<string>, summary: string, ref: string)

  datatype Feature = Feature(
    id: string, name: string, area: string, summary: string, implementation: Implementation, managedRollout: Rollout,
    evidenceRelease: string, evidenceScope: string, planFeatureKeys: seq<string>, planLimitKeys: seq<string>,
    planPolicyKeys: seq<string>, docs: seq<string>, gates: Gates, openGates: seq<OpenGate>)

  datatype NamedGate = NamedGate(id: string, value: Gate)

  const SCHEMA := "witself.feature-status.v1"

  function OrderedGates(f: Feature): (r: seq<NamedGate>)
    ensures |r| == 7
  {
    [NamedGate("behavior", f.gates.behavior), NamedGate("entitlement_policy", f.gates.entitlementPolicy),
     NamedGate("bounds_abuse", f.gates.boundsAbuse), NamedGate("observability", f.gates.observability),
     NamedGate("recovery", f.gates.recovery), NamedGate("rollout_canaries", f.gates.rolloutCanaries),
     NamedGate("docs_support", f.gates.docsSupport)]
  }

  // ------------------------------------------------------------ order on ids

  predicate Ascending(s: seq<string>) {
    forall i, j :: 0 <= i < j < |s| ==> Below(s[i], s[j])
  }

  lemma AscendingGrows(s: seq<string>, x: string)
    requires Ascending(s) && (s == [] || Below(s[|s| - 1], x))
    ensures Ascending(s + [x])
  {
    forall i, j | 0 <= i < j < |s + [x]| ensures Below((s + [x])[i], (s + [x])[j]) {
      if j == |s| && i < |s| - 1 { BelowTransitive(s[i], s[|s| - 1], x); }
    }
  }

  // ------------------------------------------------------------ text forms

  predicate IsWord(c: char) { 'a' <= c <= 'z' || '0' <= c <= '9' }

  /** Lower-case words joined by single hyphens. */
  predicate IdOk(s: string) {
    && s != "" && s[0] != '-' && s[|s| - 1] != '-'
    && (forall i :: 0 <= i < |s| ==> IsWord(s[i]) || s[i] == '-')
    && (forall i :: 0 <= i < |s| - 1 ==> !(s[i] == '-' && s[i + 1] == '-'))
  }

  function Hyphenated(s: string): (r: string)
    ensures |r| == |s|
  {
    seq(|s|, i requires 0 <= i < |s| => if s[i] == '_' then '-' else s[i])
  }

  predicate KeyOk(s: string) { IdOk(Hyphenated(s)) }

  /** The length in UTF-8. */
  function Utf8Length(s: string): nat {
    if s == "" then 0
    else
      (if s[0] < '\U{80}' then 1 else if s[0] < '\U{800}' then 2 else if s[0] < '\U{10000}' then 3 else 4)
      + Utf8Length(s[1..])
  }

  /** Not empty, on one line, and without surrounding white space. */
  predicate LineOk(s: string) {
    s != "" && !IsSpace(s[0]) && !IsSpace(s[|s| - 1]) && '\r' !in s && '\n' !in s
  }

  predicate TextOk(s: string, maximum: nat) {
    LineOk(s) && Utf8Length(s) <= maximum
  }

  // What the text forms are, independently of how they are checked.

  predicate WordParts(parts: seq<string>) {
    forall p :: p in parts ==> p != "" && forall c :: c in p ==> IsWord(c)
  }

  lemma ConsParts(part: string, parts: seq<string>)
    ensures WordParts([part] + parts) <==> WordParts([part]) && WordParts(parts)
  {
    assert part in [part] + parts;
    forall p | p in parts ensures p in [part] + parts {}
  }

  lemma FirstWord(c: char, part: string)
    requires part != ""
    ensures WordParts([[c] + part]) <==> IsWord(c) && WordParts([part])
  {
    assert [c] + part in [[c] + part] && part in [part] && c in [c] + part;
    forall x | x in part ensures x in [c] + part {}
  }

  lemma RestOfId(s: string)
    requires |s| > 1 && s[0] != '-'
    ensures s[1] != '-' ==> (IdOk(s) <==> IsWord(s[0]) && IdOk(s[1..]))
    ensures s[1] == '-' ==> (IdOk(s) <==> IsWord(s[0]) && IdOk(s[2..]))
  {
    if s[1] == '-' {
      if IdOk(s) { assert IsWord(s[0]) && s[2..] != "" && s[2] != '-'; }
      if IdOk(s[2..]) && IsWord(s[0]) {
        assert forall i :: 2 <= i < |s| ==> s[i] == s[2..][i - 2];
      }
    } else if IdOk(s[1..]) && IsWord(s[0]) {
      assert forall i :: 1 <= i < |s| ==> s[i] == s[1..][i - 1];
    }
  }

  /** An id is lower-case words, none of them empty, with hyphens between. */
  lemma {:induction false} IdExactly(s: string)
    ensures IdOk(s) <==> WordParts(Split(s, '-'))
    decreases |s|
  {
    if s == "" {
      assert "" in [""];
    } else if s[0] == '-' {
      assert "" in Split(s, '-');
    } else if |s| == 1 {
      SplitNone(s, '-');
      assert s in [s] && s[0] in s;
    } else {
      var rest := Split(s[1..], '-');
      RestOfId(s);
      if s[1] == '-' {
        IdExactly(s[2..]);
        assert s[1..][1..] == s[2..] && rest == [""] + Split(s[2..], '-');
        assert rest[0] == "" && rest[1..] == Split(s[2..], '-') && [s[0]] + "" == [s[0]];
        assert Split(s, '-') == [[s[0]]] + Split(s[2..], '-');
        ConsParts([s[0]], Split(s[2..], '-'));
        assert WordParts([[s[0]]]) <==> IsWord(s[0]) by { assert [s[0]] in [[s[0]]] && s[0] in [s[0]]; }
      } else {
        IdExactly(s[1..]);
        assert rest[0] != "" by { assert s[1..][0] == s[1]; }
        assert rest == [rest[0]] + rest[1..];
        ConsParts(rest[0], rest[1..]);
        ConsParts([s[0]] + rest[0], rest[1..]);
        FirstWord(s[0], rest[0]);
      }
    }
  }

  /** A line is a text that trimming leaves alone, on one line. */
  lemma LineExactly(s: string)
    ensures LineOk(s) <==> s != "" && TrimSpace(s) == s && '\r' !in s && '\n' !in s
  {
    TrimmedExactly(s);
  }

  predicate Digits(s: string) {
    s != "" && forall c :: c in s ==> '0' <= c <= '9'
  }

  predicate ReleaseParts(s: string, a: string, b: string, c: string) {
    Digits(a) && Digits(b) && Digits(c) && s == "v" + a + "." + b + "." + c
  }

  lemma JoinOfThree(a: string, b: string, c: string)
    ensures Joined([a, b, c], '.') == a + ['.'] + (b + ['.'] + c)
  {
    assert [a, b, c][1..] == [b, c] && [b, c][1..] == [c];
    assert Joined([b, c], '.') == b + ['.'] + c;
  }

  lemma ReleaseIsSpelled(s: string, a: string, b: string, c: string)
    requires s != "" && s[0] == 'v' && s[1..] == a + ['.'] + (b + ['.'] + c)
    ensures s == "v" + a + "." + b + "." + c
  {
    assert s == "v" + s[1..];
  }

  lemma ReleaseSplits(s: string, a: string, b: string, c: string)
    requires ReleaseOk(s) && Split(s[1..], '.') == [a, b, c]
    ensures ReleaseParts(s, a, b, c)
  {
    SplitIsJoined(s[1..], '.');
    JoinOfThree(a, b, c);
    ReleaseIsSpelled(s, a, b, c);
    forall n | n in [a, b, c] ensures Digits(n) {}
    assert a in [a, b, c] && b in [a, b, c] && c in [a, b, c];
  }

  lemma SplitOfThree(a: string, b: string, c: string)
    requires Digits(a) && Digits(b) && Digits(c)
    ensures Split(a + ['.'] + (b + ['.'] + c), '.') == [a, b, c]
  {
    SplitHead(a, '.', b + ['.'] + c);
    SplitHead(b, '.', c);
    SplitNone(c, '.');
  }

  lemma ReleaseJoins(s: string, a: string, b: string, c: string)
    requires ReleaseParts(s, a, b, c)
    ensures ReleaseOk(s)
  {
    assert s[1..] == a + ['.'] + (b + ['.'] + c);
    SplitOfThree(a, b, c);
    forall n | n in [a, b, c] ensures n != "" && forall i :: 0 <= i < |n| ==> '0' <= n[i] <= '9' {
      assert forall i :: 0 <= i < |n| ==> n[i] in n;
    }
  }

  /** A release is v and three runs of digits with dots between. */
  lemma ReleaseExactly(s: string)
    ensures ReleaseOk(s) <==> exists a, b, c :: ReleaseParts(s, a, b, c)
  {
    if ReleaseOk(s) {
      var parts := Split(s[1..], '.');
      assert parts == [parts[0], parts[1], parts[2]];
      ReleaseSplits(s, parts[0], parts[1], parts[2]);
    }
    if a, b, c :| ReleaseParts(s, a, b, c) { ReleaseJoins(s, a, b, c); }
  }

  predicate IsHttps(s: string) { "https://" <= s }

  /** The host part of an HTTPS reference. */
  function HostOf(s: string): string
    requires IsHttps(s)
  {
    Split(Split(Split(s[8..], '/')[0], '?')[0], '#')[0]
  }

  predicate SegmentOk(segment: string) { segment != "" && segment != "." && segment != ".." }

  predicate ReferenceOk(s: string) {
    && LineOk(s)
    && if IsHttps(s) then HostOf(s) != ""
       else
         var path := Split(s, '#')[0];
         '\\' !in path && forall segment :: segment in Split(path, '/') ==> SegmentOk(segment)
  }

  /** How many levels a path goes down, counting .. as one up and . or an empty segment as none. */
  function Level(segments: seq<string>): int
    decreases |segments|
  {
    if segments == [] then 0
    else
      var last := segments[|segments| - 1];
      Level(segments[..|segments| - 1]) + if last == ".." then -1 else if last == "." || last == "" then 0 else 1
  }

  /**
   A repository reference is accepted only if it never leaves the repository: every segment goes one
   level down, so no prefix climbs above the root or stands still, and no separator is hidden in one.
   */
  lemma {:induction false} ReferencesStayInside(s: string, n: nat)
    requires ReferenceOk(s) && !IsHttps(s) && n <= |Split(Split(s, '#')[0], '/')|
    ensures Level(Split(Split(s, '#')[0], '/')[..n]) == n
    ensures '\\' !in Split(s, '#')[0]
    decreases n
  {
    var segments := Split(Split(s, '#')[0], '/');
    if n > 0 {
      ReferencesStayInside(s, n - 1);
      assert segments[..n][..n - 1] == segments[..n - 1];
      assert segments[n - 1] in segments;
    }
  }

  /** v, then three dot-separated runs of digits. */
  predicate ReleaseOk(s: string) {
    && s != "" && s[0] == 'v'
    && |Split(s[1..], '.')| == 3
    && forall n :: n in Split(s[1..], '.') ==> n != "" && forall i :: 0 <= i < |n| ==> '0' <= n[i] <= '9'
  }

  // ------------------------------------------------------------ sorted lists

  /** validateSortedIDs and validateSortedReferences share this loop. */
  predicate SortedList(values: seq<string>, ok: string -> bool) {
    (forall x :: x in values ==> ok(x)) && Ascending(values)
  }

  method ValidateSorted(values: seq<string>, ok: string -> bool) returns (valid: bool)
    requires forall x :: ok(x) ==> x != ""
    ensures valid <==> SortedList(values, ok)
  {
    var previous := "";
    var seen: set<string> := {};
    for i := 0 to |values|
      invariant SortedList(values[..i], ok)
      invariant previous == if i == 0 then "" else values[i - 1]
      invariant i > 0 ==> previous != ""
      invariant seen == set x | x in values[..i]
    {
      var value := values[i];
      assert values[..i + 1] == values[..i] + [value];
      if !ok(value) { return false; }
      if value in seen {
        var k :| 0 <= k < i && values[k] == value;
        BelowIsStrict(values[k], values[i]);
        return false;
      }
      if i > 0 { BelowIsStrict(values[i - 1], value); assert values[i - 1] in values[..i]; }
      if previous != "" && Below(value, previous) { return false; }
      AscendingGrows(values[..i], value);
      seen := seen + {value};
      previous := value;
    }
    assert values[..|values|] == values;
    return true;
  }

  // ------------------------------------------------------------ gates

  predicate Needs(s: State) { s == Conditional || s == Fail }

  predicate GateOk(g: Gate) {
    && !g.state.OtherState? && TextOk(g.summary, 320) && |g.evidence| <= 8
    && (g.state != NotApplicable ==> g.evidence != [])
    && SortedList(g.evidence, ReferenceOk)
  }

  method ValidateGate(g: Gate) returns (ok: bool)
    ensures ok <==> GateOk(g)
  {
    if g.state.OtherState? || !TextOk(g.summary, 320) || |g.evidence| > 8 { return false; }
    if g.state != NotApplicable && g.evidence == [] { return false; }
    ok := ValidateSorted(g.evidence, ReferenceOk);
  }

  /** The mandatory gates a feature must answer for. */
  function Needing(named: seq<NamedGate>): set<string> {
    set k | 0 <= k < |named| && Needs(named[k].value.state) :: named[k].id
  }

  /** The gates its open gates list. */
  function Listed(open: seq<OpenGate>): set<string> {
    set i, j | 0 <= i < |open| && 0 <= j < |open[i].gateIds| :: open[i].gateIds[j]
  }

  predicate OpenGateOk(o: OpenGate, needing: set<string>) {
    && IdOk(o.id) && TextOk(o.summary, 300) && 1 <= |o.gateIds| <= 7 && SortedList(o.gateIds, KeyOk)
    && (forall g :: g in o.gateIds ==> g in needing)
    && ReferenceOk(o.ref)
  }

  function Ids(open: seq<OpenGate>): (r: seq<string>)
    ensures |r| == |open|
    ensures forall i :: 0 <= i < |r| ==> r[i] == open[i].id
  {
    seq(|open|, i requires 0 <= i < |open| => open[i].id)
  }

  /** The open gates, in strictly ascending order, list exactly the gates that need one. */
  predicate OpenGatesOk(f: Feature) {
    && |f.openGates| <= 12
    && (forall o :: o in f.openGates ==> OpenGateOk(o, Needing(OrderedGates(f))))
    && Ascending(Ids(f.openGates))
    && Needing(OrderedGates(f)) <= Listed(f.openGates)
  }

  predicate DistinctNames(named: seq<NamedGate>) {
    forall i, j :: 0 <= i < j < |named| ==> named[i].id != named[j].id
  }

  lemma GateNamesDiffer(f: Feature)
    ensures DistinctNames(OrderedGates(f))
  {
  }

  predicate GatesOk(named: seq<NamedGate>) {
    forall k :: 0 <= k < |named| ==> GateOk(named[k].value)
  }

  // What the loop over the mandatory gates accumulates.

  function StatesOf(named: seq<NamedGate>): map<string, State>
    decreases |named|
  {
    if named == [] then map[]
    else
      var n := named[|named| - 1];
      StatesOf(named[..|named| - 1])[n.id := n.value.state]
  }

  function CoverageOf(named: seq<NamedGate>): map<string, bool>
    decreases |named|
  {
    if named == [] then map[]
    else
      var n, rest := named[|named| - 1], CoverageOf(named[..|named| - 1]);
      if Needs(n.value.state) then rest[n.id := false] else rest
  }

  lemma {:induction false} StatesAreOf(named: seq<NamedGate>, g: string)
    requires g in StatesOf(named)
    ensures exists i :: 0 <= i < |named| && named[i].id == g
    decreases |named|
  {
    var last := |named| - 1;
    if g == named[last].id {
    } else {
      StatesAreOf(named[..last], g);
      var i :| 0 <= i < last && named[..last][i].id == g;
      assert named[i].id == g;
    }
  }

  /** What the loop accumulates are exactly the conditional and failed gates. */
  lemma {:induction false} AccumulatedIsNeeding(named: seq<NamedGate>)
    requires DistinctNames(named)
    ensures forall g :: g in StatesOf(named) && Needs(StatesOf(named)[g]) <==> g in Needing(named)
    ensures CoverageOf(named).Keys == Needing(named) && forall g :: g in CoverageOf(named) ==> !CoverageOf(named)[g]
    decreases |named|
  {
    if named != [] {
      var rest, n := named[..|named| - 1], named[|named| - 1];
      AccumulatedIsNeeding(rest);
      NeedingOneMore(rest, n);
      assert named == rest + [n];
      if n.id in StatesOf(rest) {
        StatesAreOf(rest, n.id);
        assert false;
      }
    }
  }

  lemma NeedingOneMore(named: seq<NamedGate>, n: NamedGate)
    ensures Needing(named + [n]) == Needing(named) + if Needs(n.value.state) then {n.id} else {}
  {
    var all := named + [n];
    assert all[|named|] == n;
    forall g | g in Needing(named) ensures g in Needing(all) {
      var i :| 0 <= i < |named| && Needs(named[i].value.state) && named[i].id == g;
      assert all[i] == named[i];
    }
  }

  lemma NeedingIsEmpty(named: seq<NamedGate>)
    ensures Needing(named) == {} <==> forall k :: 0 <= k < |named| ==> !Needs(named[k].value.state)
  {
    if k :| 0 <= k < |named| && Needs(named[k].value.state) { assert named[k].id in Needing(named); }
  }

  /** The loop over the mandatory gates. */
  method ValidateGates(named: seq<NamedGate>)
    returns (ok: bool, conditionalOrFailed: bool, gateStates: map<string, State>, coverage: map<string, bool>)
    ensures ok <==> GatesOk(named)
    ensures ok ==> (conditionalOrFailed <==> Needing(named) != {})
    ensures ok ==> gateStates == StatesOf(named) && coverage == CoverageOf(named)
  {
    conditionalOrFailed, gateStates, coverage := false, map[], map[];
    for k := 0 to |named|
      invariant GatesOk(named[..k])
      invariant conditionalOrFailed <==> exists i :: 0 <= i < k && Needs(named[i].value.state)
      invariant gateStates == StatesOf(named[..k]) && coverage == CoverageOf(named[..k])
    {
      assert named[..k + 1][..k] == named[..k];
      var state := named[k].value.state;
      ok := ValidateGate(named[k].value);
      if !ok { return; }
      gateStates := gateStates[named[k].id := state];
      conditionalOrFailed := conditionalOrFailed || Needs(state);
      if Needs(state) { coverage := coverage[named[k].id := false]; }
    }
    assert named[..|named|] == named;
    NeedingIsEmpty(named);
    ok := true;
  }

  /** The inner loop: every listed gate is a conditional or failed one, and is marked covered. */
  method MarkCovered(gateIds: seq<string>, gateStates: map<string, State>, coverage: map<string, bool>)
    returns (ok: bool, marked: map<string, bool>)
    ensures ok <==> forall g :: g in gateIds ==> g in gateStates && Needs(gateStates[g])
    ensures ok ==> marked.Keys == coverage.Keys + (set g | g in gateIds)
    ensures ok ==> forall g :: g in marked ==> (marked[g] <==> g in gateIds || (g in coverage && coverage[g]))
  {
    marked := coverage;
    for j := 0 to |gateIds|
      invariant forall g :: g in gateIds[..j] ==> g in gateStates && Needs(gateStates[g])
      invariant marked.Keys == coverage.Keys + (set g | g in gateIds[..j])
      invariant forall g :: g in marked ==> (marked[g] <==> g in gateIds[..j] || (g in coverage && coverage[g]))
    {
      assert gateIds[..j + 1] == gateIds[..j] + [gateIds[j]];
      if gateIds[j] !in gateStates || !Needs(gateStates[gateIds[j]]) { return false, marked; }
      marked := marked[gateIds[j] := true];
    }
    assert gateIds[..|gateIds|] == gateIds;
    return true, marked;
  }

  /** One open gate whose id is in order. */
  method CheckOpenGate(gate: OpenGate, gateStates: map<string, State>, coverage: map<string, bool>, ghost needing: set<string>)
    returns (ok: bool, marked: map<string, bool>)
    requires IdOk(gate.id) && coverage.Keys == needing
    requires forall g :: g in gateStates && Needs(gateStates[g]) <==> g in needing
    ensures ok <==> OpenGateOk(gate, needing)
    ensures ok ==> marked.Keys == needing
    ensures ok ==> forall g :: g in needing ==> (marked[g] <==> g in gate.gateIds || coverage[g])
  {
    marked := coverage;
    if !TextOk(gate.summary, 300) || |gate.gateIds| == 0 || |gate.gateIds| > 7 { return false, coverage; }
    ok := ValidateSorted(gate.gateIds, KeyOk);
    if !ok { return; }
    ok, marked := MarkCovered(gate.gateIds, gateStates, coverage);
    if !ok { return; }
    ok := ReferenceOk(gate.ref);
  }

  /** The loop over the open gates. */
  method ValidateOpenGates(open: seq<OpenGate>, gateStates: map<string, State>, required: map<string, bool>, needing: set<string>)
    returns (ok: bool, coverage: map<string, bool>)
    requires forall g :: g in gateStates && Needs(gateStates[g]) <==> g in needing
    requires required.Keys == needing && forall g :: g in required ==> !required[g]
    ensures ok <==> (forall o :: o in open ==> OpenGateOk(o, needing)) && Ascending(Ids(open))
    ensures ok ==> coverage.Keys == needing && forall g :: g in needing ==> (coverage[g] <==> g in Listed(open))
  {
    coverage := required;
    var previous := "";
    var seen: set<string> := {};
    for i := 0 to |open|
      invariant (forall o :: o in open[..i] ==> OpenGateOk(o, needing)) && Ascending(Ids(open[..i]))
      invariant previous == if i == 0 then "" else open[i - 1].id
      invariant i > 0 ==> previous != ""
      invariant seen == set x | x in Ids(open[..i])
      invariant coverage.Keys == needing && forall g :: g in needing ==> (coverage[g] <==> g in Listed(open[..i]))
    {
      var gate := open[i];
      assert open[..i + 1] == open[..i] + [gate];
      assert gate in open;
      assert Ids(open[..i + 1]) == Ids(open[..i]) + [gate.id];
      if !IdOk(gate.id) { return false, coverage; }
      if gate.id in seen {
        var k :| 0 <= k < i && open[k].id == gate.id;
        BelowIsStrict(gate.id, gate.id);
        assert !Below(Ids(open)[k], Ids(open)[i]);
        return false, coverage;
      }
      if i > 0 {
        BelowIsStrict(open[i - 1].id, gate.id);
        assert Ids(open[..i])[i - 1] == open[i - 1].id;
      }
      if previous != "" && Below(gate.id, previous) {
        assert !Below(Ids(open)[i - 1], Ids(open)[i]);
        return false, coverage;
      }
      AscendingGrows(Ids(open[..i]), gate.id);
      seen := seen + {gate.id};
      previous := gate.id;
      var marked;
      ok, marked := CheckOpenGate(gate, gateStates, coverage, needing);
      if !ok { return false, coverage; }
      coverage := marked;
      ListedOneMore(open[..i], gate);
    }
    assert open[..|open|] == open;
    return true, coverage;
  }

  lemma ListedOneMore(open: seq<OpenGate>, o: OpenGate)
    ensures Listed(open + [o]) == Listed(open) + set g | g in o.gateIds
  {
    var all := open + [o];
    assert forall i :: 0 <= i < |open| ==> all[i] == open[i];
    forall g | g in Listed(open) ensures g in Listed(all) {
      var i, j :| 0 <= i < |open| && 0 <= j < |open[i].gateIds| && open[i].gateIds[j] == g;
      assert all[i].gateIds[j] == g;
    }
    forall g | g in o.gateIds ensures g in Listed(all) {
      var j :| 0 <= j < |o.gateIds| && o.gateIds[j] == g;
      assert all[|open|].gateIds[j] == g;
    }
  }

  // ------------------------------------------------------------ features

  predicate HeaderOk(f: Feature) {
    && IdOk(f.id) && TextOk(f.name, 100) && TextOk(f.area, 80) && TextOk(f.summary, 320)
    && !f.implementation.OtherImplementation? && !f.managedRollout.OtherRollout?
    && (f.implementation == Retired <==> f.managedRollout == RolloutRetired)
    && (f.evidenceRelease != "" ==> ReleaseOk(f.evidenceRelease))
    && (f.evidenceRelease == "" <==> f.evidenceScope == "")
    && (f.evidenceScope != "" ==> TextOk(f.evidenceScope, 240))
    && 1 <= |f.docs| <= 12
  }

  predicate ListsOk(f: Feature) {
    SortedList(f.docs, ReferenceOk) && SortedList(f.planFeatureKeys, KeyOk) && SortedList(f.planLimitKeys, KeyOk)
    && SortedList(f.planPolicyKeys, KeyOk)
  }

  /** A feature with nothing open is implemented, rolled out and evidenced, or it is retired. */
  predicate ConclusionOk(f: Feature) {
    && (Needing(OrderedGates(f)) == {} && f.implementation != Retired ==>
          && f.implementation == Implemented
          && f.managedRollout != NotStarted && f.managedRollout != Dark && f.managedRollout != RolloutRetired
          && f.evidenceRelease != "")
    && (f.implementation == Retired ==> forall k :: 0 <= k < 7 ==> OrderedGates(f)[k].value.state == NotApplicable)
  }

  predicate FeatureOk(f: Feature) {
    HeaderOk(f) && ListsOk(f) && GatesOk(OrderedGates(f)) && OpenGatesOk(f) && ConclusionOk(f)
  }

  method ValidateLists(f: Feature) returns (ok: bool)
    ensures ok <==> ListsOk(f)
  {
    ok := ValidateSorted(f.docs, ReferenceOk);
    if ok { ok := ValidateSorted(f.planFeatureKeys, KeyOk); }
    if ok { ok := ValidateSorted(f.planLimitKeys, KeyOk); }
    if ok { ok := ValidateSorted(f.planPolicyKeys, KeyOk); }
  }

  method ValidateConclusion(f: Feature, named: seq<NamedGate>, conditionalOrFailed: bool) returns (ok: bool)
    requires named == OrderedGates(f) && (conditionalOrFailed <==> Needing(named) != {})
    ensures ok <==> ConclusionOk(f)
  {
    if !conditionalOrFailed && f.implementation != Retired {
      if f.implementation != Implemented { return false; }
      if f.managedRollout == NotStarted || f.managedRollout == Dark || f.managedRollout == RolloutRetired { return false; }
      if f.evidenceRelease == "" { return false; }
    }
    if f.implementation == Retired {
      for k := 0 to |named|
        invariant forall i :: 0 <= i < k ==> named[i].value.state == NotApplicable
      {
        if named[k].value.state != NotApplicable { return false; }
      }
    }
    return true;
  }

  /** An open gate of an accepted feature lists some gate, so it can only belong to a needing one. */
  lemma OpenNeedsNeeding(f: Feature)
    requires OpenGatesOk(f)
    ensures f.openGates == [] <==> Needing(OrderedGates(f)) == {}
  {
    if f.openGates != [] {
      assert f.openGates[0] in f.openGates;
      assert f.openGates[0].gateIds[0] in f.openGates[0].gateIds;
    }
  }

  method ValidateFeature(f: Feature) returns (ok: bool)
    ensures ok <==> FeatureOk(f)
  {
    GateNamesDiffer(f);
    if !HeaderOk(f) { return false; }
    ok := ValidateLists(f);
    if !ok { return; }
    var named := OrderedGates(f);
    var conditionalOrFailed, gateStates, required;
    ok, conditionalOrFailed, gateStates, required := ValidateGates(named);
    AccumulatedIsNeeding(named);
    if !ok || |f.openGates| > 12 { return false; }
    if OpenGatesOk(f) { OpenNeedsNeeding(f); }
    if conditionalOrFailed && |f.openGates| == 0 { return false; }
    if !conditionalOrFailed && |f.openGates| != 0 { return false; }
    var coverage;
    ok, coverage := ValidateOpenGates(f.openGates, gateStates, required, Needing(named));
    if !ok { return; }
    var left := coverage.Keys;
    while left != {}
      invariant left <= coverage.Keys
      invariant forall g :: g in coverage && g !in left ==> coverage[g]
      decreases left
    {
      var g :| g in left;
      if !coverage[g] { return false; }
      left := left - {g};
    }
    ok := ValidateConclusion(f, named, conditionalOrFailed);
  }

  // ------------------------------------------------------------ what acceptance fixes

  /** The open gates of a validated feature cover exactly its conditional and failed gates. */
  lemma ExactCover(f: Feature)
    requires FeatureOk(f)
    ensures Listed(f.openGates) == Needing(OrderedGates(f))
  {
    forall g | g in Listed(f.openGates) ensures g in Needing(OrderedGates(f)) {
      var i, j :| 0 <= i < |f.openGates| && 0 <= j < |f.openGates[i].gateIds| && f.openGates[i].gateIds[j] == g;
      assert f.openGates[i] in f.openGates;
    }
  }

  datatype Tally = Tally(pass: nat, conditional: nat, fail: nat, notApplicable: nat)

  function CountState(named: seq<NamedGate>, s: State): nat
    decreases |named|
  {
    if named == [] then 0
    else CountState(named[..|named| - 1], s) + if named[|named| - 1].value.state == s then 1 else 0
  }

  function TallyOf(named: seq<NamedGate>): Tally {
    Tally(CountState(named, Pass), CountState(named, Conditional), CountState(named, Fail), CountState(named, NotApplicable))
  }

  method GateTally(f: Feature) returns (out: Tally)
    ensures out == TallyOf(OrderedGates(f))
  {
    var named := OrderedGates(f);
    out := Tally(0, 0, 0, 0);
    for k := 0 to |named|
      invariant out == TallyOf(named[..k])
    {
      assert named[..k + 1][..k] == named[..k];
      match named[k].value.state
      case Pass => out := out.(pass := out.pass + 1);
      case Conditional => out := out.(conditional := out.conditional + 1);
      case Fail => out := out.(fail := out.fail + 1);
      case NotApplicable => out := out.(notApplicable := out.notApplicable + 1);
      case OtherState(_) =>
    }
    assert named[..|named|] == named;
  }

  lemma {:induction false} CountsState(named: seq<NamedGate>, s: State)
    ensures CountState(named, s) > 0 <==> exists k :: 0 <= k < |named| && named[k].value.state == s
    decreases |named|
  {
    if named != [] {
      var last := |named| - 1;
      CountsState(named[..last], s);
      if named[last].value.state != s && CountState(named, s) > 0 {
        var k :| 0 <= k < last && named[..last][k].value.state == s;
        assert named[k].value.state == s;
      }
      if k :| 0 <= k < |named| && named[k].value.state == s {
        if k < last { assert named[..last][k].value.state == s; }
      }
    }
  }

  lemma {:induction false} TallyAddsUp(named: seq<NamedGate>)
    requires GatesOk(named)
    ensures var t := TallyOf(named); t.pass + t.conditional + t.fail + t.notApplicable == |named|
    decreases |named|
  {
    if named != [] { TallyAddsUp(named[..|named| - 1]); }
  }

  function Readiness(f: Feature): string {
    var tally := TallyOf(OrderedGates(f));
    if f.implementation == Retired then "retired"
    else if tally.fail > 0 then "blocked"
    else if f.implementation != Implemented || f.managedRollout == NotStarted || f.managedRollout == Dark then "not ready"
    else if tally.conditional > 0 then "conditional"
    else "accepted"
  }

  /**
   Of a validated feature the headline follows from the open gates: accepted or retired exactly when
   there are none, blocked exactly when a gate fails; and the tally counts all seven gates.
   */
  lemma ReadinessIsFixed(f: Feature)
    requires FeatureOk(f)
    ensures f.openGates == [] <==> Readiness(f) == "accepted" || Readiness(f) == "retired"
    ensures Readiness(f) == "blocked" <==> exists k :: 0 <= k < 7 && OrderedGates(f)[k].value.state == Fail
    ensures Readiness(f) == "retired" <==> f.implementation == Retired
    ensures var live := f.implementation == Implemented && f.managedRollout != NotStarted && f.managedRollout != Dark;
            var states := set k | 0 <= k < 7 :: OrderedGates(f)[k].value.state;
            && (Readiness(f) == "not ready" <==> f.implementation != Retired && Fail !in states && !live)
            && (Readiness(f) == "conditional" <==> live && Fail !in states && Conditional in states)
    ensures var t := TallyOf(OrderedGates(f)); t.pass + t.conditional + t.fail + t.notApplicable == 7
  {
    var named := OrderedGates(f);
    OpenNeedsNeeding(f);
    CountsState(named, Fail);
    CountsState(named, Conditional);
    TallyAddsUp(named);
    NeedingIsEmpty(named);
    var states := set k | 0 <= k < 7 :: named[k].value.state;
    assert Fail in states <==> exists k :: 0 <= k < 7 && named[k].value.state == Fail;
    assert Conditional in states <==> exists k :: 0 <= k < 7 && named[k].value.state == Conditional;
  }

  /**
   What accepted promises of a validated feature: it is rolled out, its evidence names a release and a
   scope, and each of its seven gates passes with evidence or does not apply.
   */
  lemma AcceptedIsEvidenced(f: Feature)
    requires FeatureOk(f) && Readiness(f) == "accepted"
    ensures f.implementation == Implemented
    ensures f.managedRollout == Limited || f.managedRollout == General || f.managedRollout == RolloutNotApplicable
    ensures (exists a, b, c :: ReleaseParts(f.evidenceRelease, a, b, c)) && f.evidenceScope != "" && f.docs != []
    ensures forall k :: 0 <= k < 7 ==>
              var gate := OrderedGates(f)[k].value;
              gate.state == NotApplicable || (gate.state == Pass && gate.evidence != [])
  {
    ReadinessIsFixed(f);
    OpenNeedsNeeding(f);
    ReleaseExactly(f.evidenceRelease);
    SettledGates(OrderedGates(f));
  }

  lemma SettledGates(named: seq<NamedGate>)
    requires GatesOk(named) && Needing(named) == {}
    ensures forall k :: 0 <= k < |named| ==>
              named[k].value.state == NotApplicable || (named[k].value.state == Pass && named[k].value.evidence != [])
  {
    NeedingIsEmpty(named);
    forall k | 0 <= k < |named|
      ensures named[k].value.state == NotApplicable || (named[k].value.state == Pass && named[k].value.evidence != [])
    {
      assert GateOk(named[k].value);
    }
  }

  function PassingGate(): Gate { Gate(Pass, "g", ["e"]) }

  /** One document, one piece of evidence a gate, one release: the least a feature needs. */
  function LeastFeature(): Feature {
    var g := PassingGate();
    Feature("f", "n", "a", "s", Implemented, Limited, "v1.0.0", "e", [], [], [], ["d"], Gates(g, g, g, g, g, g, g), [])
  }

  lemma ShortForms(s: string)
    requires |s| == 1 && 'a' <= s[0] <= 'z'
    ensures IdOk(s) && Utf8Length(s) == 1 && TextOk(s, 80) && ReferenceOk(s) && SortedList([s], ReferenceOk)
  {
    assert s[1..] == "";
    SplitNone(s, '#');
    SplitNone(s, '/');
    assert !IsHttps(s);
  }

  lemma LeastGates()
    ensures GatesOk(OrderedGates(LeastFeature())) && Needing(OrderedGates(LeastFeature())) == {}
  {
    ShortForms("g");
    ShortForms("e");
    assert GateOk(PassingGate());
    NeedingIsEmpty(OrderedGates(LeastFeature()));
  }

  lemma ShortRelease()
    ensures ReleaseOk("v1.0.0")
  {
    assert Digits("1") && Digits("0");
    assert "v1.0.0" == "v" + "1" + "." + "0" + "." + "0";
    ReleaseJoins("v1.0.0", "1", "0", "0");
  }

  lemma LeastHeader()
    ensures HeaderOk(LeastFeature())
  {
    ShortForms("f"); ShortForms("n"); ShortForms("a"); ShortForms("s"); ShortForms("e");
    ShortRelease();
  }

  lemma LeastLists()
    ensures ListsOk(LeastFeature()) && OpenGatesOk(LeastFeature()) <==> Needing(OrderedGates(LeastFeature())) == {}
  {
    ShortForms("d");
    OpenNeedsNothing(LeastFeature());
  }

  lemma OpenNeedsNothing(f: Feature)
    requires f.openGates == []
    ensures OpenGatesOk(f) <==> Needing(OrderedGates(f)) == {}
  {
    assert Listed(f.openGates) == {};
  }

  /** That much is enough. */
  lemma LeastIsAccepted()
    ensures FeatureOk(LeastFeature()) && Readiness(LeastFeature()) == "accepted"
  {
    LeastHeader();
    LeastGates();
    LeastLists();
    ReadinessIsFixed(LeastFeature());
  }

  /** A retired feature is retired everywhere: no rollout, no gate, nothing open. */
  lemma RetiredIsClosed(f: Feature)
    requires FeatureOk(f)
    ensures f.implementation == Retired <==> f.managedRollout == RolloutRetired
    ensures f.implementation == Retired ==>
              f.openGates == [] && forall k :: 0 <= k < 7 ==> OrderedGates(f)[k].value.state == NotApplicable
  {
    if f.implementation == Retired { ReadinessIsFixed(f); }
  }

  // ------------------------------------------------------------ the catalog

  datatype Catalog = Catalog(schema: string, features: seq<Feature>)

  function FeatureIds(features: seq<Feature>): (r: seq<string>)
    ensures |r| == |features|
    ensures forall i :: 0 <= i < |r| ==> r[i] == features[i].id
  {
    seq(|features|, i requires 0 <= i < |features| => features[i].id)
  }

  predicate FeaturesOk(features: seq<Feature>) {
    (forall f :: f in features ==> FeatureOk(f)) && Ascending(FeatureIds(features))
  }

  lemma FeaturesOneMore(features: seq<Feature>, f: Feature)
    requires FeaturesOk(features) && FeatureOk(f) && (features == [] || Below(features[|features| - 1].id, f.id))
    ensures FeaturesOk(features + [f])
  {
    assert FeatureIds(features + [f]) == FeatureIds(features) + [f.id];
    AscendingGrows(FeatureIds(features), f.id);
  }

  /** An id that does not come after an earlier one breaks the order. */
  lemma OutOfOrder(features: seq<Feature>, k: nat, i: nat)
    requires k < i < |features| && !Below(features[k].id, features[i].id)
    ensures !FeaturesOk(features)
  {
    assert !Below(FeatureIds(features)[k], FeatureIds(features)[i]);
  }

  function IdSet(features: seq<Feature>): set<string> {
    set f | f in features :: f.id
  }

  lemma IdSetOneMore(features: seq<Feature>, f: Feature)
    ensures IdSet(features + [f]) == IdSet(features) + {f.id}
  {
    assert f in features + [f];
    forall x | x in IdSet(features) ensures x in IdSet(features + [f]) {
      var g :| g in features && g.id == x;
      assert g in features + [f];
    }
  }

  lemma Repeated(features: seq<Feature>, i: nat)
    requires i < |features| && features[i].id in IdSet(features[..i])
    ensures !FeaturesOk(features)
  {
    var g :| g in features[..i] && g.id == features[i].id;
    var k :| 0 <= k < i && features[..i][k] == g;
    BelowIsStrict(g.id, g.id);
    OutOfOrder(features, k, i);
  }

  /** What one round of the loop asks of the next feature. */
  predicate NextOk(f: Feature, seen: set<string>, previous: string) {
    FeatureOk(f) && f.id !in seen && !(previous != "" && Below(f.id, previous))
  }

  method CheckNext(f: Feature, seen: set<string>, previous: string) returns (ok: bool)
    ensures ok <==> NextOk(f, seen, previous)
  {
    ok := ValidateFeature(f);
    if !ok { return; }
    if f.id in seen { return false; }
    return !(previous != "" && Below(f.id, previous));
  }

  /** The id before the next one. */
  function Previous(fs: seq<Feature>, i: nat): string
    requires i <= |fs|
  {
    if i == 0 then "" else fs[i - 1].id
  }

  lemma IdsAreWords(fs: seq<Feature>, i: nat)
    requires FeaturesOk(fs) && i < |fs|
    ensures fs[i].id != ""
  {
    assert fs[i] in fs;
  }

  /** The feature before the next one comes strictly before it. */
  lemma PreviousIsBelow(fs: seq<Feature>, i: nat)
    requires 0 < i < |fs| && FeaturesOk(fs[..i]) && NextOk(fs[i], IdSet(fs[..i]), Previous(fs, i))
    ensures Below(fs[i - 1].id, fs[i].id)
  {
    IdsAreWords(fs[..i], i - 1);
    assert fs[..i][i - 1] in fs[..i];
    assert fs[i - 1].id in IdSet(fs[..i]);
    BelowIsStrict(fs[i - 1].id, fs[i].id);
  }

  lemma NextExtends(fs: seq<Feature>, i: nat)
    requires i < |fs| && FeaturesOk(fs[..i]) && NextOk(fs[i], IdSet(fs[..i]), Previous(fs, i))
    ensures FeaturesOk(fs[..i + 1]) && IdSet(fs[..i + 1]) == IdSet(fs[..i]) + {fs[i].id}
  {
    assert fs[..i + 1] == fs[..i] + [fs[i]];
    if i > 0 { PreviousIsBelow(fs, i); }
    FeaturesOneMore(fs[..i], fs[i]);
    IdSetOneMore(fs[..i], fs[i]);
  }

  lemma NextRefuses(fs: seq<Feature>, i: nat)
    requires i < |fs| && !NextOk(fs[i], IdSet(fs[..i]), Previous(fs, i))
    ensures !FeaturesOk(fs)
  {
    if !FeatureOk(fs[i]) {
      assert fs[i] in fs;
    } else if fs[i].id in IdSet(fs[..i]) {
      Repeated(fs, i);
    } else {
      BelowIsStrict(fs[i - 1].id, fs[i].id);
      OutOfOrder(fs, i - 1, i);
    }
  }

  /** The loop went through. */
  predicate Passed(fs: seq<Feature>)
    decreases |fs|
  {
    if fs == [] then true
    else
      var last := |fs| - 1;
      Passed(fs[..last]) && NextOk(fs[last], IdSet(fs[..last]), Previous(fs, last))
  }

  lemma PrefixOk(fs: seq<Feature>, n: nat)
    requires n <= |fs| && FeaturesOk(fs)
    ensures FeaturesOk(fs[..n])
  {
    assert FeatureIds(fs[..n]) == FeatureIds(fs)[..n];
  }

  /** It goes through exactly for valid features in strictly ascending order. */
  lemma {:induction false} PassedExactly(fs: seq<Feature>)
    ensures Passed(fs) <==> FeaturesOk(fs)
    decreases |fs|
  {
    if fs != [] {
      var last := |fs| - 1;
      PassedExactly(fs[..last]);
      assert fs[..last + 1] == fs;
      if FeaturesOk(fs) { PrefixOk(fs, last); }
      if FeaturesOk(fs[..last]) {
        if NextOk(fs[last], IdSet(fs[..last]), Previous(fs, last)) { NextExtends(fs, last); } else { NextRefuses(fs, last); }
      }
    }
  }

  lemma {:induction false} StoppedEarly(fs: seq<Feature>, n: nat)
    requires n <= |fs| && !Passed(fs[..n])
    ensures !Passed(fs)
    decreases |fs| - n
  {
    if n == |fs| {
      assert fs[..n] == fs;
    } else {
      assert fs[..n + 1][..n] == fs[..n];
      StoppedEarly(fs, n + 1);
    }
  }

  method RunThrough(fs: seq<Feature>) returns (ok: bool)
    ensures ok <==> Passed(fs)
  {
    var seen: set<string> := {};
    var previous := "";
    for i := 0 to |fs|
      invariant Passed(fs[..i]) && seen == IdSet(fs[..i]) && previous == Previous(fs, i)
    {
      assert fs[..i + 1][..i] == fs[..i] && fs[..i + 1] == fs[..i] + [fs[i]];
      ok := CheckNext(fs[i], seen, previous);
      if !ok {
        StoppedEarly(fs, i + 1);
        return;
      }
      IdSetOneMore(fs[..i], fs[i]);
      seen := seen + {fs[i].id};
      previous := fs[i].id;
    }
    assert fs[..|fs|] == fs;
    return true;
  }

  /** Validation accepts exactly one schema, 1 to 64 valid features, and strictly ascending ids. */
  method Validate(c: Catalog) returns (ok: bool)
    ensures ok <==> c.schema == SCHEMA && 1 <= |c.features| <= 64 && FeaturesOk(c.features)
  {
    if c.schema != SCHEMA || |c.features| == 0 || |c.features| > 64 { return false; }
    PassedExactly(c.features);
    ok := RunThrough(c.features);
  }
}
