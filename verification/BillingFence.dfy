/**
 The source fences of the billing rollout inventory
 (cmd/witself-control-plane/billing_rollout_inventory.go): the validator, the zero-count demand and
 the stable identity. A timestamp text is the canonical form of one whole UTC second, or it is not
 canonical; the canonical form is injective (section 5.6 of RFC 3339).
 */
module BillingFence {
  import opened Prelude

  datatype Stamp = Utc(second: int) | NotCanonical(text: string)

  const FOUR_MINUTES := 240
  const MAX_SAFE := 0x1F_FFFF_FFFF_FFFF
  const SCHEMA := "witself.billing-rollout-source-fence.v1"
  const CLOUDFLARE_ACCOUNT := "8f0bf04a4e7aab3a8cc60f02cc8c8fdb"

  datatype Identity = Identity(
    backendNamespaceId: string, bindingInventorySha256: string, cloudflareAccountId: string,
    containerApplicationId: string, containerApplicationSha256: string, containerApplicationVersion: int,
    containerInstanceCount: int, expectedTargetApplicationId: string, expectedTargetApplicationVersion: int,
    expectedTargetImageDigest: string, incompatibleInstanceCount: int, lifecycleDisabledObservedAt: Option<Stamp>,
    lifecycleGatePresent: bool, potentialWriterInstanceCount: int, priorLifecycleDisabledInspection: Option<string>,
    reviewedConfigSha256: string, secretNameInventorySha256: string, sourceInstanceInventorySha256: string,
    targetApplicationCurrent: bool, targetReleaseCommit: string, targetReleaseDate: Stamp, targetReleaseVersion: string,
    targetVersionInstanceCount: int, workerDeploymentId: string, workerScriptEtag: string, workerVersionId: string)

  datatype Fence = Fence(schema: string, observedAt: Stamp, cohortAccounts: int, apiReplicas: int, reconcilerReplicas: int,
                         id: Identity, inspectionSha256: string)

  // ------------------------------------------------------------ text forms

  predicate IsDigit(c: char) { '0' <= c <= '9' }

  predicate IsHex(s: string, n: nat) {
    |s| == n && forall i :: 0 <= i < n ==> IsDigit(s[i]) || 'a' <= s[i] <= 'f'
  }

  predicate IsSha256(s: string) { IsHex(s, 64) }

  predicate IsUuid(s: string) {
    && |s| == 36 && s[8] == '-' && s[13] == '-' && s[18] == '-' && s[23] == '-'
    && IsHex(s[..8] + s[9..13] + s[14..18] + s[19..23] + s[24..], 32)
  }

  predicate IsImageDigest(s: string) {
    |s| == 71 && s[..7] == "sha256:" && IsHex(s[7..], 64)
  }

  /** A decimal numeral without leading zeros. */
  predicate IsNumeral(s: string) {
    s == "0" || (s != "" && s[0] != '0' && forall i :: 0 <= i < |s| ==> IsDigit(s[i]))
  }

  predicate IsReleaseVersion(s: string) {
    exists i, j :: 0 <= i < j < |s| && s[i] == '.' && s[j] == '.'
                   && IsNumeral(s[..i]) && IsNumeral(s[i + 1..j]) && IsNumeral(s[j + 1..])
  }

  predicate Safe(n: int) { 0 <= n <= MAX_SAFE }

  predicate Positive(n: int) { n > 0 && Safe(n) }

  // ------------------------------------------------------------ validateBillingRolloutSourceFence

  datatype Refusal =
    | BadSchema | BadObservedAt | BadCounts | BadIdentity | BadReleaseDate | BadLifecycleIdentity | BadLifecycleObservation
    | BadInstanceCounts | BadApiCount | BadReconcilerCount

  predicate IdentityTexts(f: Identity) {
    && f.cloudflareAccountId == CLOUDFLARE_ACCOUNT
    && IsUuid(f.workerDeploymentId) && IsUuid(f.workerVersionId) && IsSha256(f.workerScriptEtag)
    && IsHex(f.backendNamespaceId, 32) && IsSha256(f.bindingInventorySha256) && IsSha256(f.secretNameInventorySha256)
    && IsUuid(f.containerApplicationId) && IsSha256(f.containerApplicationSha256)
    && IsSha256(f.sourceInstanceInventorySha256) && IsUuid(f.expectedTargetApplicationId)
    && f.expectedTargetApplicationId == f.containerApplicationId
    && IsImageDigest(f.expectedTargetImageDigest) && IsSha256(f.reviewedConfigSha256)
    && IsHex(f.targetReleaseCommit, 40) && IsReleaseVersion(f.targetReleaseVersion)
  }

  predicate IdentityNumbers(f: Identity) {
    && Positive(f.containerApplicationVersion) && Safe(f.containerInstanceCount)
    && Positive(f.expectedTargetApplicationVersion)
    && Safe(f.incompatibleInstanceCount) && Safe(f.potentialWriterInstanceCount) && Safe(f.targetVersionInstanceCount)
    && (f.targetApplicationCurrent ==> f.containerApplicationVersion == f.expectedTargetApplicationVersion)
  }

  /** Four minutes have passed since the lifecycle was seen disabled. */
  predicate OutsideInFlightBound(f: Fence) {
    && f.observedAt.Utc?
    && f.id.lifecycleDisabledObservedAt.Some?
    && f.id.lifecycleDisabledObservedAt.value.Utc?
    && f.observedAt.second - f.id.lifecycleDisabledObservedAt.value.second >= FOUR_MINUTES
  }

  function WantApi(f: Identity): int {
    if !f.targetApplicationCurrent && f.potentialWriterInstanceCount < 1 then 1 else f.potentialWriterInstanceCount
  }

  function WantReconcilers(f: Fence): int {
    if !f.id.lifecycleGatePresent && f.apiReplicas == 0 && OutsideInFlightBound(f) then 0
    else if f.apiReplicas < 1 then 1
    else f.apiReplicas
  }

  function Validate(f: Fence): Option<Refusal> {
    if f.schema != SCHEMA || !IsSha256(f.inspectionSha256) then Some(BadSchema)
    else if !f.observedAt.Utc? then Some(BadObservedAt)
    else if f.cohortAccounts != 0 || !Safe(f.apiReplicas) || !Safe(f.reconcilerReplicas) then Some(BadCounts)
    else if !IdentityTexts(f.id) || !IdentityNumbers(f.id) then Some(BadIdentity)
    else if !f.id.targetReleaseDate.Utc? then Some(BadReleaseDate)
    else if f.id.priorLifecycleDisabledInspection.Some? != f.id.lifecycleDisabledObservedAt.Some?
            || (f.id.priorLifecycleDisabledInspection.Some? && !IsSha256(f.id.priorLifecycleDisabledInspection.value)) then
      Some(BadLifecycleIdentity)
    else if f.id.lifecycleDisabledObservedAt.Some?
            && (f.id.lifecycleDisabledObservedAt.value.NotCanonical?
                || f.id.lifecycleDisabledObservedAt.value.second > f.observedAt.second) then
      Some(BadLifecycleObservation)
    else if f.id.targetVersionInstanceCount + f.id.incompatibleInstanceCount != f.id.potentialWriterInstanceCount
            || f.id.potentialWriterInstanceCount > f.id.containerInstanceCount then
      Some(BadInstanceCounts)
    else if f.apiReplicas != WantApi(f.id) then Some(BadApiCount)
    else if f.reconcilerReplicas != WantReconcilers(f) then Some(BadReconcilerCount)
    else None
  }

  // ------------------------------------------------------------ what a validated fence is

  /** So many lower-case hexadecimal digits. */
  predicate HexText(s: string, n: nat) {
    |s| == n && forall c :: c in s ==> c in "0123456789abcdef"
  }

  predicate UuidParts(s: string, a: string, b: string, c: string, d: string, e: string) {
    HexText(a, 8) && HexText(b, 4) && HexText(c, 4) && HexText(d, 4) && HexText(e, 12)
    && s == a + "-" + b + "-" + c + "-" + d + "-" + e
  }

  ghost predicate UuidText(s: string) {
    exists a, b, c, d, e :: UuidParts(s, a, b, c, d, e)
  }

  predicate NumeralText(s: string) {
    s != "" && (forall c :: c in s ==> c in "0123456789") && (s[0] == '0' ==> s == "0")
  }

  predicate ReleaseParts(s: string, a: string, b: string, c: string) {
    NumeralText(a) && NumeralText(b) && NumeralText(c) && s == a + "." + b + "." + c
  }

  ghost predicate ReleaseText(s: string) {
    exists a, b, c :: ReleaseParts(s, a, b, c)
  }

  lemma HexExactly(s: string, n: nat)
    ensures IsHex(s, n) <==> HexText(s, n)
  {
    if IsHex(s, n) {
      forall c | c in s ensures c in "0123456789abcdef" {
        var i :| 0 <= i < |s| && s[i] == c;
        HexDigit(c);
      }
    }
    if HexText(s, n) {
      forall i | 0 <= i < n ensures IsDigit(s[i]) || 'a' <= s[i] <= 'f' {
        assert s[i] in s;
        HexDigit(s[i]);
      }
    }
  }

  lemma HexDigit(c: char)
    ensures c in "0123456789abcdef" <==> IsDigit(c) || 'a' <= c <= 'f'
    ensures c in "0123456789" <==> IsDigit(c)
  {
    var hex := "0123456789abcdef";
    if IsDigit(c) { assert hex[c as int - '0' as int] == c; assert "0123456789"[c as int - '0' as int] == c; }
    if 'a' <= c <= 'f' { assert hex[10 + c as int - 'a' as int] == c; }
  }

  lemma JoinIsHex(a: string, b: string, n: nat, m: nat)
    requires |a| == n
    ensures HexText(a + b, n + m) <==> HexText(a, n) && HexText(b, m)
  {
    assert a <= a + b && (a + b)[n..] == b;
    if HexText(a + b, n + m) {
      forall c | c in a ensures c in "0123456789abcdef" { assert c in a + b; }
      forall c | c in b ensures c in "0123456789abcdef" { assert c in a + b; }
    }
  }

  lemma UuidSlices(s: string)
    requires |s| == 36
    ensures IsHex(s[..8] + s[9..13] + s[14..18] + s[19..23] + s[24..], 32) <==>
              HexText(s[..8], 8) && HexText(s[9..13], 4) && HexText(s[14..18], 4) && HexText(s[19..23], 4) && HexText(s[24..], 12)
  {
    HexExactly(s[..8] + s[9..13] + s[14..18] + s[19..23] + s[24..], 32);
    JoinIsHex(s[..8], s[9..13], 8, 4);
    JoinIsHex(s[..8] + s[9..13], s[14..18], 12, 4);
    JoinIsHex(s[..8] + s[9..13] + s[14..18], s[19..23], 16, 4);
    JoinIsHex(s[..8] + s[9..13] + s[14..18] + s[19..23], s[24..], 20, 12);
  }

  lemma UuidExactly(s: string)
    ensures IsUuid(s) <==> UuidText(s)
  {
    if |s| == 36 { UuidSlices(s); }
    if IsUuid(s) {
      assert s == s[..8] + "-" + s[9..13] + "-" + s[14..18] + "-" + s[19..23] + "-" + s[24..];
      assert UuidParts(s, s[..8], s[9..13], s[14..18], s[19..23], s[24..]);
    }
    if a, b, c, d, e :| UuidParts(s, a, b, c, d, e) {
      assert s[..8] == a && s[9..13] == b && s[14..18] == c && s[19..23] == d && s[24..] == e;
    }
  }

  lemma NumeralExactly(s: string)
    ensures IsNumeral(s) <==> NumeralText(s)
  {
    if IsNumeral(s) {
      forall c | c in s ensures c in "0123456789" { HexDigit(c); }
    }
    if NumeralText(s) {
      forall i | 0 <= i < |s| ensures IsDigit(s[i]) {
        assert s[i] in s;
        HexDigit(s[i]);
      }
    }
  }

  lemma ReleaseSplits(s: string)
    requires IsReleaseVersion(s)
    ensures ReleaseText(s)
  {
    var i, j :| 0 <= i < j < |s| && s[i] == '.' && s[j] == '.'
                && IsNumeral(s[..i]) && IsNumeral(s[i + 1..j]) && IsNumeral(s[j + 1..]);
    CutAtDots(s, i, j, s[..i], s[i + 1..j], s[j + 1..]);
  }

  lemma CutAtDots(s: string, i: nat, j: nat, a: string, b: string, c: string)
    requires i < j < |s| && s[i] == '.' && s[j] == '.' && a == s[..i] && b == s[i + 1..j] && c == s[j + 1..]
    requires IsNumeral(a) && IsNumeral(b) && IsNumeral(c)
    ensures ReleaseParts(s, a, b, c)
  {
    NumeralExactly(a);
    NumeralExactly(b);
    NumeralExactly(c);
    assert s == a + "." + b + "." + c;
  }

  lemma ReleaseJoins(s: string, a: string, b: string, c: string)
    requires ReleaseParts(s, a, b, c)
    ensures IsReleaseVersion(s)
  {
    NumeralExactly(a);
    NumeralExactly(b);
    NumeralExactly(c);
    var i, j := |a|, |a| + 1 + |b|;
    assert s[..i] == a && s[i + 1..j] == b && s[j + 1..] == c;
    assert s[i] == '.' && s[j] == '.';
  }

  lemma ReleaseExactly(s: string)
    ensures IsReleaseVersion(s) <==> ReleaseText(s)
  {
    if IsReleaseVersion(s) { ReleaseSplits(s); }
    if a, b, c :| ReleaseParts(s, a, b, c) { ReleaseJoins(s, a, b, c); }
  }

  lemma DigestExactly(s: string)
    ensures IsImageDigest(s) <==> "sha256:" <= s && HexText(s[7..], 64)
  {
    if |s| >= 7 { HexExactly(s[7..], 64); }
    assert |"sha256:"| == 7;
  }

  function HashesOf(f: Identity): set<string> {
    {f.workerScriptEtag, f.bindingInventorySha256, f.secretNameInventorySha256, f.containerApplicationSha256,
     f.sourceInstanceInventorySha256, f.reviewedConfigSha256}
  }

  function UuidsOf(f: Identity): set<string> {
    {f.workerDeploymentId, f.workerVersionId, f.containerApplicationId, f.expectedTargetApplicationId}
  }

  ghost predicate TextsInForm(f: Identity) {
    && f.cloudflareAccountId == CLOUDFLARE_ACCOUNT && f.expectedTargetApplicationId == f.containerApplicationId
    && (forall s :: s in HashesOf(f) ==> HexText(s, 64)) && (forall s :: s in UuidsOf(f) ==> UuidText(s))
    && HexText(f.backendNamespaceId, 32) && HexText(f.targetReleaseCommit, 40)
    && "sha256:" <= f.expectedTargetImageDigest && HexText(f.expectedTargetImageDigest[7..], 64)
    && ReleaseText(f.targetReleaseVersion)
  }

  lemma TextsExactly(f: Identity)
    ensures IdentityTexts(f) <==> TextsInForm(f)
  {
    forall s ensures IsSha256(s) <==> HexText(s, 64) { HexExactly(s, 64); }
    forall s ensures IsUuid(s) <==> UuidText(s) { UuidExactly(s); }
    HexExactly(f.backendNamespaceId, 32);
    HexExactly(f.targetReleaseCommit, 40);
    DigestExactly(f.expectedTargetImageDigest);
    ReleaseExactly(f.targetReleaseVersion);
  }

  function CountsOf(f: Fence): set<int> {
    {f.apiReplicas, f.reconcilerReplicas, f.id.containerInstanceCount, f.id.incompatibleInstanceCount,
     f.id.potentialWriterInstanceCount, f.id.targetVersionInstanceCount, f.id.containerApplicationVersion,
     f.id.expectedTargetApplicationVersion}
  }

  predicate CountsInRange(f: Fence) {
    forall n :: n in CountsOf(f) ==> 0 <= n <= MAX_SAFE
  }

  lemma RangesExactly(f: Fence)
    ensures CountsInRange(f) <==>
              Safe(f.apiReplicas) && Safe(f.reconcilerReplicas) && Safe(f.id.containerInstanceCount)
              && Safe(f.id.incompatibleInstanceCount) && Safe(f.id.potentialWriterInstanceCount)
              && Safe(f.id.targetVersionInstanceCount) && Safe(f.id.containerApplicationVersion)
              && Safe(f.id.expectedTargetApplicationVersion)
  {
    if CountsInRange(f) { assert f.apiReplicas in CountsOf(f) && f.reconcilerReplicas in CountsOf(f); }
  }

  /** The lifecycle was seen disabled, under an earlier inspection, at a time not after this one. */
  predicate SeenDisabled(f: Fence) {
    && f.id.lifecycleDisabledObservedAt.Some? && f.id.lifecycleDisabledObservedAt.value.Utc?
    && f.observedAt.Utc? && f.id.lifecycleDisabledObservedAt.value.second <= f.observedAt.second
    && f.id.priorLifecycleDisabledInspection.Some? && HexText(f.id.priorLifecycleDisabledInspection.value, 64)
  }

  /** No request can still be in flight: nothing serves, and the lifecycle was seen disabled four minutes ago or earlier. */
  predicate Drained(f: Fence) {
    && f.apiReplicas == 0 && !f.id.lifecycleGatePresent && SeenDisabled(f)
    && f.id.lifecycleDisabledObservedAt.value.second + FOUR_MINUTES <= f.observedAt.second
  }

  /** What a fence attests, member by member. */
  ghost predicate InForm(f: Fence) {
    && f.schema == SCHEMA && HexText(f.inspectionSha256, 64) && TextsInForm(f.id)
    && f.observedAt.Utc? && f.id.targetReleaseDate.Utc? && f.cohortAccounts == 0
    && CountsInRange(f)
    && f.id.containerApplicationVersion != 0 && f.id.expectedTargetApplicationVersion != 0
    && (f.id.targetApplicationCurrent ==> f.id.containerApplicationVersion == f.id.expectedTargetApplicationVersion)
    && (SeenDisabled(f) || (f.id.lifecycleDisabledObservedAt.None? && f.id.priorLifecycleDisabledInspection.None?))
    && f.id.targetVersionInstanceCount + f.id.incompatibleInstanceCount == f.id.potentialWriterInstanceCount
    && f.id.potentialWriterInstanceCount <= f.id.containerInstanceCount
    && f.apiReplicas == (if f.id.targetApplicationCurrent then f.id.potentialWriterInstanceCount
                         else Max(f.id.potentialWriterInstanceCount, 1))
    && f.reconcilerReplicas == if Drained(f) then 0 else Max(f.apiReplicas, 1)
  }

  /** The validator passes exactly the fences in form. */
  lemma ValidatedExactly(f: Fence)
    ensures Validate(f).None? <==> InForm(f)
  {
    TextsExactly(f.id);
    RangesExactly(f);
    HexExactly(f.inspectionSha256, 64);
    if f.id.priorLifecycleDisabledInspection.Some? { HexExactly(f.id.priorLifecycleDisabledInspection.value, 64); }
  }

  // ------------------------------------------------------------ validateZeroBillingRolloutSourceCounts

  datatype ZeroRefusal = NotZero | BoundNotElapsed

  function Zero(f: Fence): Option<ZeroRefusal> {
    if f.cohortAccounts != 0 || f.apiReplicas != 0 || f.reconcilerReplicas != 0 || f.id.lifecycleGatePresent
       || !f.id.targetApplicationCurrent || f.id.potentialWriterInstanceCount != 0 || f.id.targetVersionInstanceCount != 0
       || f.id.incompatibleInstanceCount != 0 || f.id.lifecycleDisabledObservedAt.None?
       || f.id.priorLifecycleDisabledInspection.None? then Some(NotZero)
    else if !OutsideInFlightBound(f) then Some(BoundNotElapsed)
    else None
  }

  /**
   For a validated fence the whole zero-count demand is one number: it passes exactly when no
   reconciler replica is attested. Its four-minute refusal never comes.
   */
  lemma ZeroExactlyWithoutReconcilers(f: Fence)
    requires Validate(f).None?
    ensures Zero(f).None? <==> f.reconcilerReplicas == 0
    ensures Zero(f) != Some(BoundNotElapsed)
  {
  }

  /** Reconcilers are never fewer than API replicas, and those never fewer than the writers they stand for. */
  lemma ReconcilersCoverApi(f: Fence)
    requires Validate(f).None?
    ensures f.reconcilerReplicas >= f.apiReplicas >= f.id.potentialWriterInstanceCount
    ensures f.apiReplicas > f.id.potentialWriterInstanceCount <==>
            !f.id.targetApplicationCurrent && f.id.potentialWriterInstanceCount == 0
    ensures f.reconcilerReplicas > f.apiReplicas <==>
            f.apiReplicas == 0 && (f.id.lifecycleGatePresent || !OutsideInFlightBound(f))
  {
  }

  // ------------------------------------------------------------ the stable identity

  /** The identity without the counts that may change between two observations of the same source. */
  function Stable(f: Identity): Identity {
    f.(containerInstanceCount := 0, sourceInstanceInventorySha256 := "", targetVersionInstanceCount := 0,
       incompatibleInstanceCount := 0, potentialWriterInstanceCount := 0)
  }

  /** Two identities are stably one exactly when they differ in nothing but those five counts and inventories. */
  lemma StableExactly(a: Identity, b: Identity)
    ensures Stable(a) == Stable(b) <==>
              b == a.(containerInstanceCount := b.containerInstanceCount,
                      sourceInstanceInventorySha256 := b.sourceInstanceInventorySha256,
                      targetVersionInstanceCount := b.targetVersionInstanceCount,
                      incompatibleInstanceCount := b.incompatibleInstanceCount,
                      potentialWriterInstanceCount := b.potentialWriterInstanceCount)
  {
    if Stable(a) == Stable(b) {
      assert Stable(a).backendNamespaceId == a.backendNamespaceId == b.backendNamespaceId;
    }
  }

  /**
   Two zero fences with one stable identity differ at most in when they were observed, in the number
   and inventory of container instances, and in their own hash.
   */
  lemma StableZerosAgree(a: Fence, b: Fence)
    requires Validate(a).None? && Validate(b).None? && Zero(a).None? && Zero(b).None? && Stable(a.id) == Stable(b.id)
    ensures b == a.(observedAt := b.observedAt, inspectionSha256 := b.inspectionSha256,
                    id := a.id.(containerInstanceCount := b.id.containerInstanceCount,
                                sourceInstanceInventorySha256 := b.id.sourceInstanceInventorySha256))
  {
  }
}
