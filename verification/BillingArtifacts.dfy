/**
 The hash-bound artifacts of the billing rollout inventory
 (cmd/witself-control-plane/billing_rollout_inventory.go): private counts, the strict canonical
 decoding, the scan and the finalization. Canonical JSON is modelled by the value it spells: sorted
 keys make that spelling unique, and every other spelling of a value is a different text.
 */
module BillingArtifacts {
  import opened Prelude
  import opened BillingFence

  const PROVISIONAL_SCHEMA := "witself.billing-rollout-inventory-provisional.v1"
  const PUBLIC_SCHEMA := "witself.billing-rollout-inventory.v1"
  const MAX_OBJECTS := 1_000_000

  // ------------------------------------------------------------ private counts

  datatype Records = Records(preparedDowngrades: int, targetlessPending: int, malformedPending: int,
                             malformedReceipts: int, postHorizonReceipts: int)

  predicate RecordsValid(r: Records) {
    r.preparedDowngrades >= 0 && r.targetlessPending >= 0 && r.malformedPending >= 0
    && r.malformedReceipts >= 0 && r.postHorizonReceipts >= 0
  }

  /** Every class of record was among the objects scanned, and no object was counted twice. */
  predicate CountsFit(accounts: int, receipts: int, r: Records) {
    && 0 <= accounts <= MAX_OBJECTS && 0 <= receipts <= MAX_OBJECTS
    && RecordsValid(r)
    && r.preparedDowngrades + r.targetlessPending + r.malformedPending <= accounts
    && r.malformedReceipts + r.postHorizonReceipts <= receipts
  }

  function Sum(s: seq<int>): int
    decreases |s|
  {
    if s == [] then 0 else Sum(s[..|s| - 1]) + s[|s| - 1]
  }

  predicate NonNegative(s: seq<int>) {
    forall i :: 0 <= i < |s| ==> s[i] >= 0
  }

  lemma {:induction false} SumMonotone(s: seq<int>, n: nat)
    requires n <= |s| && forall i :: n <= i < |s| ==> s[i] >= 0
    ensures Sum(s[..n]) <= Sum(s)
    decreases |s|
  {
    if n == |s| {
      assert s[..n] == s;
    } else {
      assert s[..|s| - 1][..n] == s[..n];
      SumMonotone(s[..|s| - 1], n);
    }
  }

  /** One of the two countdown loops. */
  method CountDown(counts: seq<int>, objects: int) returns (ok: bool)
    ensures ok <==> NonNegative(counts) && (counts == [] || Sum(counts) <= objects)
  {
    var remaining := objects;
    for i := 0 to |counts|
      invariant NonNegative(counts[..i]) && remaining == objects - Sum(counts[..i])
      invariant i > 0 ==> remaining >= 0
    {
      assert counts[..i + 1][..i] == counts[..i];
      if counts[i] < 0 || counts[i] > remaining {
        if NonNegative(counts) { SumMonotone(counts, i + 1); }
        return false;
      }
      remaining := remaining - counts[i];
    }
    assert counts[..|counts|] == counts;
    return true;
  }

  lemma SumAppend(s: seq<int>, n: int)
    ensures Sum(s + [n]) == Sum(s) + n
  {
  }

  method ValidPrivateCounts(accounts: int, receipts: int, r: Records) returns (ok: bool)
    ensures ok <==> CountsFit(accounts, receipts, r)
  {
    if accounts < 0 || accounts > MAX_OBJECTS || receipts < 0 || receipts > MAX_OBJECTS { return false; }
    var a := [] + [r.preparedDowngrades] + [r.targetlessPending] + [r.malformedPending];
    SumAppend([], r.preparedDowngrades);
    SumAppend([] + [r.preparedDowngrades], r.targetlessPending);
    SumAppend([] + [r.preparedDowngrades] + [r.targetlessPending], r.malformedPending);
    var okA := CountDown(a, accounts);
    assert NonNegative(a) <==> a[0] >= 0 && a[1] >= 0 && a[2] >= 0;
    if !okA { return false; }
    var b := [] + [r.malformedReceipts] + [r.postHorizonReceipts];
    SumAppend([], r.malformedReceipts);
    SumAppend([] + [r.malformedReceipts], r.postHorizonReceipts);
    ok := CountDown(b, receipts);
    assert NonNegative(b) <==> b[0] >= 0 && b[1] >= 0;
  }

  // What counts fit: those some scan of that many objects can come to, each object in one class or in none.

  /** Objects by their class, 0 for none; class k + 1 occurs counts[k] times. */
  ghost predicate Classified(objects: seq<nat>, counts: seq<int>) {
    forall k :: 0 <= k < |counts| ==> multiset(objects)[k + 1] == counts[k]
  }

  lemma {:induction false} SumUpdate(s: seq<int>, i: nat, n: int)
    requires i < |s|
    ensures Sum(s[i := n]) == Sum(s) - s[i] + n
    decreases |s|
  {
    var last := |s| - 1;
    if i == last {
      assert s[i := n][..last] == s[..last];
    } else {
      SumUpdate(s[..last], i, n);
      assert s[i := n][..last] == s[..last][i := n];
    }
  }

  lemma {:induction false} ZerosSumToNothing(s: seq<int>)
    requires forall i :: 0 <= i < |s| ==> s[i] == 0
    ensures Sum(s) == 0
    decreases |s|
  {
    if s != [] { ZerosSumToNothing(s[..|s| - 1]); }
  }

  lemma {:induction false} ClassesFit(objects: seq<nat>, counts: seq<int>)
    requires Classified(objects, counts)
    ensures NonNegative(counts) && Sum(counts) <= |objects|
    decreases |objects|
  {
    if objects == [] {
      ZerosSumToNothing(counts);
    } else {
      var last := |objects| - 1;
      var k := (objects[last] as int) - 1;
      assert objects == objects[..last] + [objects[last]];
      if 0 <= k < |counts| {
        ClassesFit(objects[..last], counts[k := counts[k] - 1]);
        SumUpdate(counts, k, counts[k] - 1);
      } else {
        ClassesFit(objects[..last], counts);
      }
    }
  }

  lemma {:induction false} RepeatedCount(x: nat, n: nat, y: nat)
    ensures multiset(seq(n, _ => x))[y] == if y == x then n else 0
    decreases n
  {
    if n > 0 {
      RepeatedCount(x, n - 1, y);
      assert seq(n, _ => x) == seq(n - 1, _ => x) + [x];
    }
  }

  lemma {:induction false} FillClasses(counts: seq<int>, n: int) returns (objects: seq<nat>)
    requires NonNegative(counts) && Sum(counts) <= n
    ensures |objects| == n && Classified(objects, counts) && forall x :: x in objects ==> x <= |counts|
    decreases |counts|
  {
    if counts == [] {
      objects := seq(n, _ => 0);
    } else {
      var last := |counts| - 1;
      var rest := FillClasses(counts[..last], n - counts[last]);
      objects := rest + seq(counts[last], _ => last + 1);
      forall k | 0 <= k < |counts| ensures multiset(objects)[k + 1] == counts[k] {
        RepeatedCount(last + 1, counts[last], k + 1);
        if k < last { assert counts[..last][k] == counts[k]; } else { assert last + 1 !in rest; }
      }
    }
  }

  ghost predicate Scannable(n: int, counts: seq<int>) {
    exists objects :: |objects| == n && Classified(objects, counts)
  }

  lemma ScannableExactly(n: int, counts: seq<int>)
    ensures Scannable(n, counts) <==> n >= 0 && NonNegative(counts) && Sum(counts) <= n
  {
    if objects :| |objects| == n && Classified(objects, counts) { ClassesFit(objects, counts); }
    if n >= 0 && NonNegative(counts) && Sum(counts) <= n { var objects := FillClasses(counts, n); }
  }

  lemma SumOfThree(a: int, b: int, c: int)
    ensures Sum([a, b, c]) == a + b + c && Sum([a, b]) == a + b
  {
    assert [a, b, c][..2] == [a, b] && [a, b][..1] == [a] && [a][..0] == [];
    assert Sum([a]) == a;
    assert Sum([a, b]) == a + b;
  }

  /** The counts that fit are exactly those a scan of at most a million objects of each kind can come to. */
  lemma CountsFitExactly(accounts: int, receipts: int, r: Records)
    ensures CountsFit(accounts, receipts, r) <==>
              && accounts <= MAX_OBJECTS && receipts <= MAX_OBJECTS
              && Scannable(accounts, [r.preparedDowngrades, r.targetlessPending, r.malformedPending])
              && Scannable(receipts, [r.malformedReceipts, r.postHorizonReceipts])
  {
    var a, b := [r.preparedDowngrades, r.targetlessPending, r.malformedPending], [r.malformedReceipts, r.postHorizonReceipts];
    ScannableExactly(accounts, a);
    ScannableExactly(receipts, b);
    SumOfThree(a[0], a[1], a[2]);
    SumOfThree(b[0], b[1], 0);
    assert NonNegative(a) <==> a[0] >= 0 && a[1] >= 0 && a[2] >= 0;
    assert NonNegative(b) <==> b[0] >= 0 && b[1] >= 0;
  }

  // ------------------------------------------------------------ canonical text

  /** The member names of a provisional artifact. */
  datatype Key =
    | SchemaMember | ScanStartedAt | ScanCompletedAt | BeforeSourceInspectionSha256 | RegistryAuthoritySha256
    | AccountObjectsScanned | MutationReceiptObjectsScanned | RecordsMember | ProvisionalSha256
    | PreparedDowngrades | TargetlessPendingChanges | MalformedPendingChanges
    | MalformedMutationReceipts | PostRetryHorizonReceipts | OtherMember(name: string)

  datatype Json = Text(s: string) | Number(n: int) | Time(t: Stamp) | Object(members: map<Key, Json>)

  /** One line of a file: the canonical spelling of a value, another spelling of it, or no JSON value. */
  datatype Line = Canonical(value: Json) | Loose(spelled: Json, variant: nat) | NotJson(text: string)

  /** A file: a line and how many newlines follow it. */
  datatype Raw = Raw(line: Line, newlines: nat)

  datatype Provisional = Provisional(schema: string, scanStartedAt: Stamp, scanCompletedAt: Stamp,
                                     beforeInspection: string, authority: string, accounts: int, receipts: int,
                                     records: Records, sha: string)

  function RecordsJson(r: Records): Json {
    Object(map[MalformedMutationReceipts := Number(r.malformedReceipts),
               MalformedPendingChanges := Number(r.malformedPending),
               PostRetryHorizonReceipts := Number(r.postHorizonReceipts),
               PreparedDowngrades := Number(r.preparedDowngrades),
               TargetlessPendingChanges := Number(r.targetlessPending)])
  }

  function Unsigned(p: Provisional): map<Key, Json> {
    map[AccountObjectsScanned := Number(p.accounts),
        BeforeSourceInspectionSha256 := Text(p.beforeInspection),
        MutationReceiptObjectsScanned := Number(p.receipts),
        RecordsMember := RecordsJson(p.records),
        RegistryAuthoritySha256 := Text(p.authority),
        ScanCompletedAt := Time(p.scanCompletedAt),
        ScanStartedAt := Time(p.scanStartedAt),
        SchemaMember := Text(p.schema)]
  }

  function Signed(p: Provisional): Json {
    Object(Unsigned(p)[ProvisionalSha256 := Text(p.sha)])
  }

  // The decoder: unknown members and members of another type are refused, missing ones stay zero.

  function TextAt(m: map<Key, Json>, key: Key): Option<string> {
    if key !in m then Some("") else if m[key].Text? then Some(m[key].s) else None
  }

  function NumberAt(m: map<Key, Json>, key: Key): Option<int> {
    if key !in m then Some(0) else if m[key].Number? then Some(m[key].n) else None
  }

  function TimeAt(m: map<Key, Json>, key: Key): Option<Stamp> {
    if key !in m then Some(NotCanonical("")) else if m[key].Time? then Some(m[key].t) else None
  }

  function RecordsAt(m: map<Key, Json>): Option<Records> {
    if RecordsMember !in m then Some(Records(0, 0, 0, 0, 0))
    else if !m[RecordsMember].Object? then None
    else
      var r := m[RecordsMember].members;
      var a, b, c, d, e := NumberAt(r, PreparedDowngrades), NumberAt(r, TargetlessPendingChanges),
        NumberAt(r, MalformedPendingChanges), NumberAt(r, MalformedMutationReceipts),
        NumberAt(r, PostRetryHorizonReceipts);
      if !(r.Keys <= RecordsJson(Records(0, 0, 0, 0, 0)).members.Keys)
         || a.None? || b.None? || c.None? || d.None? || e.None? then None
      else Some(Records(a.value, b.value, c.value, d.value, e.value))
  }

  const BLANK := Provisional("", NotCanonical(""), NotCanonical(""), "", "", 0, 0, Records(0, 0, 0, 0, 0), "")

  function DecodeProvisional(v: Json): Option<Provisional> {
    if !v.Object? || !(v.members.Keys <= Signed(BLANK).members.Keys) then None
    else
      var m := v.members;
      var schema, before, authority, sha := TextAt(m, SchemaMember), TextAt(m, BeforeSourceInspectionSha256),
        TextAt(m, RegistryAuthoritySha256), TextAt(m, ProvisionalSha256);
      var started, completed := TimeAt(m, ScanStartedAt), TimeAt(m, ScanCompletedAt);
      var accounts, receipts := NumberAt(m, AccountObjectsScanned), NumberAt(m, MutationReceiptObjectsScanned);
      var records := RecordsAt(m);
      if schema.None? || before.None? || authority.None? || sha.None? || started.None? || completed.None?
         || accounts.None? || receipts.None? || records.None? then None
      else Some(Provisional(schema.value, started.value, completed.value, before.value, authority.value,
                            accounts.value, receipts.value, records.value, sha.value))
  }

  /** decodeStrictCanonicalBillingRolloutJSON, for a provisional. */
  function StrictDecode(raw: Raw): Option<Provisional> {
    if raw.newlines > 1 || raw.line.NotJson? then None
    else
      var p := DecodeProvisional(if raw.line.Canonical? then raw.line.value else raw.line.spelled);
      if p.Some? && raw.line == Canonical(Signed(p.value)) then p else None
  }

  lemma RecordsRoundTrip(p: Provisional)
    ensures RecordsAt(Signed(p).members) == Some(p.records)
  {
  }

  lemma DecodeSigned(p: Provisional)
    ensures DecodeProvisional(Signed(p)) == Some(p)
  {
    RecordsRoundTrip(p);
    TextsRoundTrip(p);
    NumbersRoundTrip(p);
    assert Signed(p).members.Keys == Signed(BLANK).members.Keys;
  }

  lemma TextsRoundTrip(p: Provisional)
    ensures var m := Signed(p).members;
            && TextAt(m, SchemaMember) == Some(p.schema) && TextAt(m, ProvisionalSha256) == Some(p.sha)
            && TextAt(m, BeforeSourceInspectionSha256) == Some(p.beforeInspection)
            && TextAt(m, RegistryAuthoritySha256) == Some(p.authority)
  {
  }

  lemma NumbersRoundTrip(p: Provisional)
    ensures var m := Signed(p).members;
            && TimeAt(m, ScanStartedAt) == Some(p.scanStartedAt) && TimeAt(m, ScanCompletedAt) == Some(p.scanCompletedAt)
            && NumberAt(m, AccountObjectsScanned) == Some(p.accounts)
            && NumberAt(m, MutationReceiptObjectsScanned) == Some(p.receipts)
  {
  }

  /**
   Strict decoding inverts the canonical encoding, and a record has one accepted file up to the one
   trailing newline.
   */
  lemma StrictDecodingIsExact(raw: Raw, p: Provisional)
    ensures StrictDecode(raw) == Some(p) <==> raw.line == Canonical(Signed(p)) && raw.newlines <= 1
  {
    DecodeSigned(p);
  }

  // ------------------------------------------------------------ hashes

  /** What is hashed, as the value whose canonical text is hashed. */
  datatype Content =
    | FenceBody(fence: Fence)
    | ProvisionalBody(members: map<Key, Json>)
    | AuthorityBody(bucket: string, host: string, prefix: string)

  type Sha = Content -> string

  /** A fence's content without its own hash. */
  function Body(f: Fence): Content {
    FenceBody(f.(inspectionSha256 := ""))
  }

  /** A fence as readBillingRolloutSourceFence returns it. */
  predicate Read(f: Fence, sha: Sha) {
    Validate(f).None? && f.inspectionSha256 == sha(Body(f))
  }

  datatype ReadRefusal = NotStrict | BadFields | BadStarted | BadCompleted | BadHash

  /** What the reader checks of a decoded record. */
  function Refused(p: Provisional, sha: Sha): Option<ReadRefusal> {
    if p.schema != PROVISIONAL_SCHEMA || !IsSha256(p.beforeInspection) || !IsSha256(p.authority) || !IsSha256(p.sha)
       || !RecordsValid(p.records) || !CountsFit(p.accounts, p.receipts, p.records) then Some(BadFields)
    else if p.scanStartedAt.NotCanonical? then Some(BadStarted)
    else if p.scanCompletedAt.NotCanonical? || p.scanCompletedAt.second < p.scanStartedAt.second then Some(BadCompleted)
    else if p.sha != sha(ProvisionalBody(Unsigned(p))) then Some(BadHash)
    else None
  }

  function ReadProvisional(raw: Raw, sha: Sha): Result<Provisional, ReadRefusal> {
    var p := StrictDecode(raw);
    if p.None? then Err(NotStrict)
    else if Refused(p.value, sha).Some? then Err(Refused(p.value, sha).value)
    else Ok(p.value)
  }

  /** What a provisional says is in form: its schema, hashes, counts, and a scan that did not end before it began. */
  predicate WellFormed(p: Provisional) {
    && p.schema == PROVISIONAL_SCHEMA && IsSha256(p.beforeInspection) && IsSha256(p.authority) && IsSha256(p.sha)
    && CountsFit(p.accounts, p.receipts, p.records)
    && p.scanStartedAt.Utc? && p.scanCompletedAt.Utc? && p.scanStartedAt.second <= p.scanCompletedAt.second
  }

  lemma RefusedExactly(p: Provisional, sha: Sha)
    ensures Refused(p, sha).None? <==> WellFormed(p) && p.sha == sha(ProvisionalBody(Unsigned(p)))
  {
  }

  /**
   The reader takes a file for a record exactly when the file is the record's canonical text with at
   most one newline, the record is in form, and its own hash is that of its other members.
   */
  lemma ReadExactly(raw: Raw, p: Provisional, sha: Sha)
    ensures ReadProvisional(raw, sha) == Ok(p) <==>
              && raw.line == Canonical(Signed(p)) && raw.newlines <= 1 && WellFormed(p)
              && p.sha == sha(ProvisionalBody(Unsigned(p)))
  {
    StrictDecodingIsExact(raw, p);
    RefusedExactly(p, sha);
  }

  /** The members without the hash, and the hash, are the whole record. */
  lemma UnsignedIsWhole(p: Provisional, q: Provisional)
    requires Unsigned(p) == Unsigned(q) && p.sha == q.sha
    ensures p == q
  {
    DecodeSigned(p);
    DecodeSigned(q);
    assert Signed(p) == Signed(q);
  }

  /**
   No record can be altered under its hash: two accepted files with one provisional hash are one text
   and hold one record, as long as the hash does not collide on the two.
   */
  lemma HashFixesRecord(raw1: Raw, p: Provisional, raw2: Raw, q: Provisional, sha: Sha)
    requires ReadProvisional(raw1, sha) == Ok(p) && ReadProvisional(raw2, sha) == Ok(q) && p.sha == q.sha
    requires NoCollision(sha, ProvisionalBody(Unsigned(p)), ProvisionalBody(Unsigned(q)))
    ensures p == q && raw1.line == raw2.line
  {
    ReadExactly(raw1, p, sha);
    ReadExactly(raw2, q, sha);
    UnsignedIsWhole(p, q);
  }

  predicate NoCollision(sha: Sha, a: Content, b: Content) {
    sha(a) == sha(b) ==> a == b
  }

  // ------------------------------------------------------------ scan

  /** A collector's clock reading: seconds since the epoch, nanoseconds, and whether it is in UTC. */
  datatype Instant = Instant(second: int, nanos: nat, utc: bool)

  const YEAR_1 := -62_135_596_800
  const YEAR_10000 := 253_402_300_800

  datatype Capture = Capture(startedAt: Instant, completedAt: Instant, beforeInspection: string, authority: string,
                             accounts: int, receipts: int, records: Records)

  datatype ScanRefusal = BeforeNotZero(why: ZeroRefusal) | BadCapture | StartNotAfterBefore | CompletionNotAfterBefore

  /** A whole UTC second of a four-digit year that is not Go's zero time. */
  predicate WholeSecond(t: Instant) {
    t.utc && t.nanos == 0 && YEAR_1 < t.second < YEAR_10000
  }

  predicate CaptureValid(c: Capture, before: Fence, authority: string) {
    && WholeSecond(c.startedAt) && WholeSecond(c.completedAt) && c.startedAt.second <= c.completedAt.second
    && c.beforeInspection == before.inspectionSha256 && c.authority == authority
    && RecordsValid(c.records) && CountsFit(c.accounts, c.receipts, c.records)
  }

  /** What the scan writes for a capture. */
  function Provisioned(c: Capture, sha: Sha): Provisional {
    var p := Provisional(PROVISIONAL_SCHEMA, Utc(c.startedAt.second), Utc(c.completedAt.second), c.beforeInspection,
                         c.authority, c.accounts, c.receipts, c.records, "");
    p.(sha := sha(ProvisionalBody(Unsigned(p))))
  }

  function Scan(before: Fence, authority: string, c: Capture, sha: Sha): Result<Raw, ScanRefusal>
    requires Validate(before).None?
  {
    if Zero(before).Some? then Err(BeforeNotZero(Zero(before).value))
    else if !CaptureValid(c, before, authority) then Err(BadCapture)
    else if c.startedAt.second <= before.observedAt.second then Err(StartNotAfterBefore)
    else if c.completedAt.second <= before.observedAt.second then Err(CompletionNotAfterBefore)
    else Ok(Raw(Canonical(Signed(Provisioned(c, sha))), 1))
  }

  /** What the scan writes, the provisional reader accepts and decodes to the same record. */
  lemma ScanIsReadBack(before: Fence, authority: string, c: Capture, sha: Sha)
    requires Validate(before).None? && Scan(before, authority, c, sha).Ok?
    requires IsSha256(authority) && IsSha256(Provisioned(c, sha).sha)
    ensures ReadProvisional(Scan(before, authority, c, sha).value, sha) == Ok(Provisioned(c, sha))
  {
    var p := Provisioned(c, sha);
    assert Unsigned(p) == Unsigned(p.(sha := ""));
    ReadExactly(Scan(before, authority, c, sha).value, p, sha);
  }

  /** And it holds the whole capture: two captures that scan to one file are the same. */
  lemma ScanLosesNothing(before: Fence, authority: string, c: Capture, d: Capture, sha: Sha)
    requires Validate(before).None? && Scan(before, authority, c, sha).Ok?
    requires Scan(before, authority, c, sha) == Scan(before, authority, d, sha)
    ensures c == d
  {
    DecodeSigned(Provisioned(c, sha));
    DecodeSigned(Provisioned(d, sha));
  }

  /** When a scan publishes: for a fence that attests zero, a valid capture begun after it. Its last refusal never comes. */
  lemma ScanExactly(before: Fence, authority: string, c: Capture, sha: Sha)
    requires Validate(before).None?
    ensures Scan(before, authority, c, sha).Ok? <==>
              before.reconcilerReplicas == 0 && CaptureValid(c, before, authority) && c.startedAt.second > before.observedAt.second
    ensures Scan(before, authority, c, sha) != Err(CompletionNotAfterBefore)
  {
    ZeroExactlyWithoutReconcilers(before);
  }

  // ------------------------------------------------------------ finalize

  datatype Public = Public(schema: string, capturedAt: int, cohortAccounts: int, apiReplicas: int, reconcilerReplicas: int,
                           records: Records)

  datatype FinalizeRefusal =
    | BeforeRefused(why: ZeroRefusal) | AfterRefused(whyAfter: ZeroRefusal) | CountsChanged | IdentityChanged
    | OtherBefore | OtherAuthority | AfterNotAfterBefore | NoBracket | NotRepresentable

  function Finalize(before: Fence, p: Provisional, after: Fence, authority: string): Result<Public, FinalizeRefusal>
    requires Validate(before).None? && Validate(after).None? && p.scanStartedAt.Utc? && p.scanCompletedAt.Utc?
  {
    var b, a, started, completed := before.observedAt.second, after.observedAt.second,
      p.scanStartedAt.second, p.scanCompletedAt.second;
    if Zero(before).Some? then Err(BeforeRefused(Zero(before).value))
    else if Zero(after).Some? then Err(AfterRefused(Zero(after).value))
    else if before.apiReplicas != after.apiReplicas || before.reconcilerReplicas != after.reconcilerReplicas
            || before.cohortAccounts != after.cohortAccounts then Err(CountsChanged)
    else if Stable(before.id) != Stable(after.id) then Err(IdentityChanged)
    else if p.beforeInspection != before.inspectionSha256 then Err(OtherBefore)
    else if p.authority != authority then Err(OtherAuthority)
    else if a <= b then Err(AfterNotAfterBefore)
    else if started <= b || started > completed || completed > a then Err(NoBracket)
    else if completed <= b || completed > a then Err(NotRepresentable)
    else Ok(Public(PUBLIC_SCHEMA, completed, 0, 0, 0, p.records))
  }

  /** Exactly when finalize publishes. */
  predicate Publishable(before: Fence, p: Provisional, after: Fence, authority: string)
    requires Validate(before).None? && Validate(after).None? && p.scanStartedAt.Utc? && p.scanCompletedAt.Utc?
  {
    && before.reconcilerReplicas == 0 && after.reconcilerReplicas == 0
    && Stable(before.id) == Stable(after.id)
    && p.beforeInspection == before.inspectionSha256 && p.authority == authority
    && before.observedAt.second < p.scanStartedAt.second <= p.scanCompletedAt.second <= after.observedAt.second
  }

  /** Two of its refusals never come: equal zeros cannot have changed, and the bracket already fixes the capture time. */
  lemma FinalizeExactly(before: Fence, p: Provisional, after: Fence, authority: string)
    requires Validate(before).None? && Validate(after).None? && p.scanStartedAt.Utc? && p.scanCompletedAt.Utc?
    ensures Finalize(before, p, after, authority).Ok? <==> Publishable(before, p, after, authority)
    ensures Finalize(before, p, after, authority) != Err(NotRepresentable)
    ensures Finalize(before, p, after, authority) != Err(CountsChanged)
  {
  }

  /**
   What is published: the zeros both fences attest, captured inside the bracket and more than four
   minutes after the lifecycle was seen disabled, by one source that both fences name.
   */
  lemma PublishedIsAttested(before: Fence, p: Provisional, after: Fence, authority: string)
    requires Validate(before).None? && Validate(after).None? && p.scanStartedAt.Utc? && p.scanCompletedAt.Utc?
    requires Finalize(before, p, after, authority).Ok?
    ensures var out := Finalize(before, p, after, authority).value;
            && out.cohortAccounts == before.cohortAccounts == after.cohortAccounts
            && out.apiReplicas == before.apiReplicas == after.apiReplicas
            && out.reconcilerReplicas == before.reconcilerReplicas == after.reconcilerReplicas
            && before.observedAt.second < p.scanStartedAt.second <= out.capturedAt == p.scanCompletedAt.second
            && out.capturedAt <= after.observedAt.second
            && before.id.lifecycleDisabledObservedAt.Some? && before.id.lifecycleDisabledObservedAt.value.Utc?
            && after.id.lifecycleDisabledObservedAt == before.id.lifecycleDisabledObservedAt
            && out.capturedAt - before.id.lifecycleDisabledObservedAt.value.second > FOUR_MINUTES
  {
  }

  /**
   The pipeline: what a scan wrote is finalized, under the same BEFORE fence and authority, exactly
   when AFTER attests zero for the same source no earlier than the scan completed.
   */
  lemma ScanThenFinalize(before: Fence, authority: string, c: Capture, after: Fence, sha: Sha)
    requires Validate(before).None? && Validate(after).None? && Scan(before, authority, c, sha).Ok?
    requires IsSha256(authority) && IsSha256(Provisioned(c, sha).sha)
    ensures var read := ReadProvisional(Scan(before, authority, c, sha).value, sha);
            && read.Ok? && read.value.scanStartedAt.Utc? && read.value.scanCompletedAt.Utc?
            && var out := Finalize(before, read.value, after, authority);
               && (out.Ok? <==> after.reconcilerReplicas == 0 && Stable(before.id) == Stable(after.id)
                                && c.completedAt.second <= after.observedAt.second)
               && (out.Ok? ==> out.value.records == c.records && out.value.capturedAt == c.completedAt.second)
  {
    ScanIsReadBack(before, authority, c, sha);
    ZeroExactlyWithoutReconcilers(before);
    FinalizeExactly(before, Provisioned(c, sha), after, authority);
  }

  lemma OneBeforeOfRecord(p: Provisional, b1: Fence, b2: Fence, a1: Fence, a2: Fence, auth1: Content, auth2: Content, sha: Sha)
    requires Read(b1, sha) && Read(b2, sha) && Read(a1, sha) && Read(a2, sha)
    requires p.scanStartedAt.Utc? && p.scanCompletedAt.Utc?
    requires Finalize(b1, p, a1, sha(auth1)).Ok? && Finalize(b2, p, a2, sha(auth2)).Ok?
    requires NoCollision(sha, Body(b1), Body(b2)) && NoCollision(sha, auth1, auth2)
    ensures b1 == b2 && auth1 == auth2
  {
  }

  /**
   A provisional file that finalizes is bound by its one hash to its record, to one BEFORE fence and
   to one authority, as long as the hash does not collide on the candidates.
   */
  lemma BoundToOneBefore(raw1: Raw, p: Provisional, raw2: Raw, q: Provisional, b1: Fence, b2: Fence, a1: Fence, a2: Fence,
                         auth1: Content, auth2: Content, sha: Sha)
    requires ReadProvisional(raw1, sha) == Ok(p) && ReadProvisional(raw2, sha) == Ok(q) && p.sha == q.sha
    requires Read(b1, sha) && Read(b2, sha) && Read(a1, sha) && Read(a2, sha)
    requires p.scanStartedAt.Utc? && p.scanCompletedAt.Utc? && q.scanStartedAt.Utc? && q.scanCompletedAt.Utc?
    requires Finalize(b1, p, a1, sha(auth1)).Ok? && Finalize(b2, q, a2, sha(auth2)).Ok?
    requires NoCollision(sha, ProvisionalBody(Unsigned(p)), ProvisionalBody(Unsigned(q)))
    requires NoCollision(sha, Body(b1), Body(b2)) && NoCollision(sha, auth1, auth2)
    ensures p == q && raw1.line == raw2.line && b1 == b2 && auth1 == auth2
  {
    HashFixesRecord(raw1, p, raw2, q, sha);
    OneBeforeOfRecord(p, b1, b2, a1, a2, auth1, auth2, sha);
  }
}
