/**
 The dashboard's self-upgrade decisions (cmd/witself-admin/tui_upgrade.go): version parsing, the
 order on versions, the release identity, and why relaunching cannot loop.
 */
module SelfUpgrade {
  import opened Prelude

  const MAX_INT := 0x7FFF_FFFF_FFFF_FFFF

  datatype Triple = Triple(major: int, minor: int, patch: int)

  // ------------------------------------------------------------ numerals

  predicate IsDigit(c: char) { '0' <= c <= '9' }

  predicate AllDigits(s: string) { forall i :: 0 <= i < |s| ==> IsDigit(s[i]) }

  function Value(digits: string): nat
    requires AllDigits(digits)
    decreases |digits|
  {
    if digits == "" then 0
    else 10 * Value(digits[..|digits| - 1]) + (digits[|digits| - 1] as int - '0' as int)
  }

  /** strconv.Atoi: an optional sign, digits, and the range of an int. */
  function Atoi(s: string): Option<int> {
    var signed := s != "" && (s[0] == '+' || s[0] == '-');
    var digits := if signed then s[1..] else s;
    if digits == "" || !AllDigits(digits) then None
    else
      var v: int := if signed && s[0] == '-' then -(Value(digits) as int) else Value(digits);
      if -MAX_INT - 1 <= v <= MAX_INT then Some(v) else None
  }

  function Digit(d: nat): char
    requires d < 10
  {
    ('0' as int + d) as char
  }

  /** The %d of a non-negative number. */
  function Print(n: nat): (s: string)
    ensures s != "" && AllDigits(s) && Value(s) == n
    ensures s[0] == '0' ==> n == 0
  {
    if n < 10 then
      assert [Digit(n)][..0] == "";
      [Digit(n)]
    else
      var s := Print(n / 10) + [Digit(n % 10)];
      assert s[..|s| - 1] == Print(n / 10);
      s
  }

  lemma AtoiPrint(n: nat)
    requires n <= MAX_INT
    ensures Atoi(Print(n)) == Some(n)
  {
  }

  // ------------------------------------------------------------ parseSemver

  /** The part before the first hyphen, without surrounding space or the leading v. */
  function Core(s: string): string {
    var t := TrimSpace(s);
    Split(if t != "" && t[0] == 'v' then t[1..] else t, '-')[0]
  }

  function ParseParts(nums: seq<string>): Option<Triple> {
    if |nums| != 3 then None
    else
      var a, b, c := Atoi(nums[0]), Atoi(nums[1]), Atoi(nums[2]);
      if a.Some? && b.Some? && c.Some? && a.value >= 0 && b.value >= 0 && c.value >= 0
      then Some(Triple(a.value, b.value, c.value)) else None
  }

  function Parse(s: string): Option<Triple> {
    ParseParts(Split(Core(s), '.'))
  }

  /** The loop that fills the array; it stops at the first part that is not a number from zero on. */
  method FillParts(nums: seq<string>, out: array<int>) returns (ok: bool)
    requires |nums| == out.Length == 3
    modifies out
    ensures ok <==> forall k :: 0 <= k < 3 ==> Atoi(nums[k]).Some? && Atoi(nums[k]).value >= 0
    ensures ok ==> forall k :: 0 <= k < 3 ==> Atoi(nums[k]) == Some(out[k])
  {
    for i := 0 to 3
      invariant forall k :: 0 <= k < i ==> Atoi(nums[k]) == Some(out[k]) && out[k] >= 0
    {
      var v := Atoi(nums[i]);
      if v.None? || v.value < 0 { return false; }
      out[i] := v.value;
    }
    return true;
  }

  method ParseSemver(s: string) returns (out: array<int>, ok: bool)
    ensures out.Length == 3
    ensures ok <==> Parse(s).Some?
    ensures ok ==> Parse(s).value == Triple(out[0], out[1], out[2])
  {
    out := new int[3](_ => 0);
    var nums := Split(Core(s), '.');
    assert Parse(s) == ParseParts(nums);
    if |nums| != 3 { return out, false; }
    ok := FillParts(nums, out);
  }

  // ------------------------------------------------------------ newerVersion

  predicate Less(a: Triple, b: Triple) {
    || a.major < b.major
    || (a.major == b.major && a.minor < b.minor)
    || (a.major == b.major && a.minor == b.minor && a.patch < b.patch)
  }

  predicate Newer(current: string, latest: string) {
    Parse(current).Some? && Parse(latest).Some? && Less(Parse(current).value, Parse(latest).value)
  }

  /** A strict order, total up to the numeric triple; what does not parse is newer than nothing and older than nothing. */
  lemma NewerIsStrictOrder(a: string, b: string, c: string)
    ensures !Newer(a, a)
    ensures Newer(a, b) ==> !Newer(b, a)
    ensures Newer(a, b) && Newer(b, c) ==> Newer(a, c)
    ensures Parse(a).Some? && Parse(b).Some? ==> Newer(a, b) || Newer(b, a) || Parse(a) == Parse(b)
    ensures Newer(a, b) && !Newer(c, b) && Parse(c).Some? ==> Newer(a, c)
  {
  }

  // ------------------------------------------------------------ releaseWorkflowIdentity

  function Dotted(t: Triple): string
    requires t.major >= 0 && t.minor >= 0 && t.patch >= 0
  {
    Print(t.major) + "." + Print(t.minor) + "." + Print(t.patch)
  }

  function Canonical(t: Triple): string
    requires t.major >= 0 && t.minor >= 0 && t.patch >= 0
  {
    "v" + Dotted(t)
  }

  /** Whether releaseWorkflowIdentity accepts the tag. */
  predicate Accepts(tag: string) {
    Parse(tag).Some? && tag == Canonical(Parse(tag).value)
  }

  predicate IsTriple(t: Triple) {
    0 <= t.major <= MAX_INT && 0 <= t.minor <= MAX_INT && 0 <= t.patch <= MAX_INT
  }

  lemma DigitsAreNot(s: string, c: char)
    requires AllDigits(s) && !IsDigit(c)
    ensures c !in s
  {
  }

  lemma SplitDotted(a: string, b: string, c: string)
    requires AllDigits(a) && AllDigits(b) && AllDigits(c)
    ensures Split(a + "." + b + "." + c, '.') == [a, b, c]
  {
    DigitsAreNot(a, '.');
    DigitsAreNot(b, '.');
    DigitsAreNot(c, '.');
    assert a + "." + b + "." + c == a + ['.'] + (b + "." + c);
    SplitHead(a, '.', b + "." + c);
    assert b + "." + c == b + ['.'] + c;
    SplitHead(b, '.', c);
    SplitNone(c, '.');
  }

  /** What the parser keeps of a hyphen-free body that begins with a digit: the v, a suffix and space around go. */
  lemma CoreKeepsBody(before: string, v: bool, body: string, suffix: Option<string>, after: string)
    requires AllSpace(before) && AllSpace(after)
    requires body != "" && IsDigit(body[0]) && '-' !in body && !IsSpace(body[|body| - 1])
    requires suffix.Some? && suffix.value != "" ==> !IsSpace(suffix.value[|suffix.value| - 1])
    ensures Core(before + Tagged(v, body, suffix) + after) == body
  {
    var t := Tagged(v, body, suffix);
    assert t != "" && !IsSpace(t[0]) && !IsSpace(t[|t| - 1]);
    TrimSpaceLeaves(before, t, after);
    var kept := if v then t[1..] else t;
    SplitNone(body, '-');
    if suffix.Some? {
      assert kept == body + ['-'] + suffix.value;
      SplitHead(body, '-', suffix.value);
    } else {
      assert kept == body;
    }
  }

  lemma CoreOfBare(body: string)
    requires body != "" && IsDigit(body[0]) && '-' !in body && !IsSpace(body[|body| - 1])
    ensures Core(body) == body
  {
    CoreKeepsBody("", false, body, None, "");
    assert "" + Tagged(false, body, None) + "" == body;
  }

  lemma ParseOfCore(s: string, body: string)
    requires Core(s) == body
    ensures Parse(s) == ParseParts(Split(body, '.'))
  {
  }

  function Tagged(v: bool, body: string, suffix: Option<string>): string {
    (if v then "v" else "") + body + (if suffix.Some? then "-" + suffix.value else "")
  }

  lemma DottedHasNoHyphen(t: Triple)
    requires IsTriple(t)
    ensures Dotted(t) != "" && '-' !in Dotted(t) && IsDigit(Dotted(t)[0]) && IsDigit(Dotted(t)[|Dotted(t)| - 1])
  {
  }

  /** Parsing inverts printing; the v, a suffix after a hyphen and space around do not matter. */
  lemma ParseIsLenient(t: Triple, v: bool, suffix: Option<string>, before: string, after: string)
    requires IsTriple(t) && AllSpace(before) && AllSpace(after)
    requires suffix.Some? && suffix.value != "" ==> !IsSpace(suffix.value[|suffix.value| - 1])
    ensures Parse(before + Tagged(v, Dotted(t), suffix) + after) == Some(t)
  {
    DottedHasNoHyphen(t);
    CoreKeepsBody(before, v, Dotted(t), suffix, after);
    SplitDotted(Print(t.major), Print(t.minor), Print(t.patch));
    AtoiPrint(t.major);
    AtoiPrint(t.minor);
    AtoiPrint(t.patch);
  }

  lemma {:induction false} SplitNumerals(parts: seq<string>)
    requires parts != [] && forall k :: 0 <= k < |parts| ==> AllDigits(parts[k]) && parts[k] != ""
    ensures var s := Joined(parts, '.');
            Split(s, '.') == parts && s != "" && IsDigit(s[0]) && IsDigit(s[|s| - 1]) && '-' !in s
    decreases |parts|
  {
    DigitsAreNot(parts[0], '.');
    DigitsAreNot(parts[0], '-');
    if |parts| == 1 {
      SplitNone(parts[0], '.');
    } else {
      SplitNumerals(parts[1..]);
      SplitHead(parts[0], '.', Joined(parts[1..], '.'));
    }
  }

  lemma AtoiOfDigits(s: string)
    requires AllDigits(s) && s != ""
    ensures Atoi(s) == if Value(s) <= MAX_INT then Some(Value(s)) else None
    ensures Atoi("+" + s) == Atoi(s)
    ensures Atoi("-" + s) == if Value(s) <= MAX_INT + 1 then Some(-(Value(s) as int)) else None
  {
    assert ("+" + s)[1..] == s && ("-" + s)[1..] == s;
  }

  lemma PartsExactly(parts: seq<string>)
    requires forall k :: 0 <= k < |parts| ==> AllDigits(parts[k]) && parts[k] != ""
    ensures ParseParts(parts).Some? <==> |parts| == 3 && forall k :: 0 <= k < 3 ==> Value(parts[k]) <= MAX_INT
  {
    forall k | 0 <= k < |parts| ensures Atoi(parts[k]) == if Value(parts[k]) <= MAX_INT then Some(Value(parts[k])) else None {
      AtoiOfDigits(parts[k]);
    }
  }

  lemma ParseOfJoined(parts: seq<string>)
    requires parts != [] && forall k :: 0 <= k < |parts| ==> AllDigits(parts[k]) && parts[k] != ""
    ensures Parse(Joined(parts, '.')) == ParseParts(parts)
  {
    SplitNumerals(parts);
    CoreOfBare(Joined(parts, '.'));
    ParseOfCore(Joined(parts, '.'), Joined(parts, '.'));
  }

  /** Of dotted numerals only three in range make a version. */
  lemma ThreePartsOnly(parts: seq<string>)
    requires parts != [] && forall k :: 0 <= k < |parts| ==> AllDigits(parts[k]) && parts[k] != ""
    ensures Parse(Joined(parts, '.')).Some? <==> |parts| == 3 && forall k :: 0 <= k < 3 ==> Value(parts[k]) <= MAX_INT
  {
    ParseOfJoined(parts);
    PartsExactly(parts);
  }

  lemma ParseCanonical(t: Triple)
    requires IsTriple(t)
    ensures Parse(Canonical(t)) == Some(t)
  {
    ParseIsLenient(t, true, None, "", "");
    assert "" + Tagged(true, Dotted(t), None) + "" == Canonical(t);
  }

  /** The tags accepted are exactly the printed triples, each of one triple. */
  lemma AcceptsExactlyPrinted(tag: string)
    ensures Accepts(tag) <==> exists t :: IsTriple(t) && tag == Canonical(t)
    ensures Accepts(tag) ==> forall t :: IsTriple(t) && tag == Canonical(t) ==> Parse(tag) == Some(t)
  {
    if Accepts(tag) {
      assert IsTriple(Parse(tag).value);
    }
    forall t | IsTriple(t) && tag == Canonical(t) ensures Parse(tag) == Some(t) {
      ParseCanonical(t);
    }
  }

  // ------------------------------------------------------------ the direction of the order

  /** A triple read as three digits to the base k. */
  function Number(t: Triple, k: int): int {
    t.major * k * k + t.minor * k + t.patch
  }

  lemma LeadingDigitDecides(x: int, y: int, p: int, q: int, k: int)
    requires x < y && 0 <= p < k && 0 <= q < k
    ensures x * k + p < y * k + q
  {
    assert (x + 1) * k <= y * k;
  }

  lemma NumberSplits(t: Triple, k: int)
    ensures Number(t, k) == (t.major * k + t.minor) * k + t.patch
  {
  }

  /** The numbers of two triples stand as the triples do, digit by digit. */
  lemma NumbersDecide(a: Triple, b: Triple, k: int)
    requires a.minor < k && a.patch < k && b.minor < k && b.patch < k
    requires IsTriple(a) && IsTriple(b)
    ensures a.major < b.major ==> Number(a, k) < Number(b, k)
    ensures a.major == b.major && a.minor < b.minor ==> Number(a, k) < Number(b, k)
    ensures a.major == b.major && a.minor == b.minor ==> (Number(a, k) < Number(b, k) <==> a.patch < b.patch)
  {
    NumberSplits(a, k);
    NumberSplits(b, k);
    if a.major < b.major {
      LeadingDigitDecides(a.major, b.major, a.minor, b.minor, k);
      LeadingDigitDecides(a.major * k + a.minor, b.major * k + b.minor, a.patch, b.patch, k);
    } else if a.major == b.major && a.minor < b.minor {
      LeadingDigitDecides(a.major * k + a.minor, b.major * k + b.minor, a.patch, b.patch, k);
    }
  }

  /** What decides is the number: a parsed tag is newer exactly when it stands for the greater one. */
  lemma NewerIsGreater(current: string, latest: string, k: int)
    requires Parse(current).Some? && Parse(latest).Some?
    requires var a, b := Parse(current).value, Parse(latest).value;
             a.minor < k && a.patch < k && b.minor < k && b.patch < k
    ensures Newer(current, latest) <==> Number(Parse(current).value, k) < Number(Parse(latest).value, k)
  {
    NumbersDecide(Parse(current).value, Parse(latest).value, k);
    NumbersDecide(Parse(latest).value, Parse(current).value, k);
  }

  /** On printed tags, whatever base exceeds the components. */
  lemma NewerTagIsGreater(a: Triple, b: Triple, k: int)
    requires IsTriple(a) && IsTriple(b)
    requires a.major < k && a.minor < k && a.patch < k && b.major < k && b.minor < k && b.patch < k
    ensures Newer(Canonical(a), Canonical(b)) <==>
              a.major * k * k + a.minor * k + a.patch < b.major * k * k + b.minor * k + b.patch
  {
    ParseCanonical(a);
    ParseCanonical(b);
    NewerIsGreater(Canonical(a), Canonical(b), k);
  }

  /** A base beyond every component there is. */
  const RADIX := MAX_INT + 1

  /** The number of a version that parses. */
  function Rank(version: string): int
    requires Parse(version).Some?
  {
    Number(Parse(version).value, RADIX)
  }

  method NewerVersion(current: string, latest: string) returns (newer: bool)
    ensures newer == Newer(current, latest)
    ensures newer <==> Parse(current).Some? && Parse(latest).Some? && Rank(current) < Rank(latest)
  {
    var cur, ok1 := ParseSemver(current);
    var lat, ok2 := ParseSemver(latest);
    if !ok1 || !ok2 { return false; }
    ghost var a, b := Parse(current).value, Parse(latest).value;
    NewerIsGreater(current, latest, RADIX);
    for i := 0 to 3
      invariant i > 0 ==> b.major == a.major
      invariant i > 1 ==> b.minor == a.minor
      invariant i > 2 ==> b.patch == a.patch
    {
      assert i == 0 || i == 1 || i == 2;
      if lat[i] != cur[i] { return lat[i] > cur[i]; }
    }
    return false;
  }

  // ------------------------------------------------------------ relaunches

  /** verifyInstalledVersion, on the version the installed binary prints. */
  predicate Verified(installed: string, tag: string) {
    !Newer(installed, tag)
  }

  /** A process of one version, offered a tag, restarts as what was installed. */
  predicate Relaunch(current: string, tag: string, installed: string) {
    Newer(current, tag) && Verified(installed, tag)
  }

  predicate NeverUpgrades(version: string) {
    Parse(version).None?
  }

  /** A relaunch strictly raises the version's number, at least to the tag's, or lands on one that will never be offered an upgrade. */
  lemma RelaunchRaises(current: string, tag: string, installed: string)
    requires Relaunch(current, tag, installed)
    ensures Parse(current).Some? && Parse(tag).Some?
    ensures if Parse(installed).Some? then Rank(current) < Rank(tag) <= Rank(installed)
            else NeverUpgrades(installed) && forall next :: !Newer(installed, next)
  {
    NewerIsGreater(current, tag, RADIX);
    if Parse(installed).Some? { NewerIsGreater(installed, tag, RADIX); }
  }

  /** A run of relaunches: versions[i] was offered tags[i] and became versions[i + 1]. */
  predicate Chain(versions: seq<string>, tags: seq<string>) {
    |versions| == |tags| + 1 && forall i :: 0 <= i < |tags| ==> Relaunch(versions[i], tags[i], versions[i + 1])
  }

  lemma {:induction false} ChainTagsRise(versions: seq<string>, tags: seq<string>, i: nat, j: nat)
    requires Chain(versions, tags) && i < j < |tags|
    ensures Newer(tags[i], tags[j])
    decreases j - i
  {
    assert Relaunch(versions[i], tags[i], versions[i + 1]) && Relaunch(versions[j], tags[j], versions[j + 1]);
    if j == i + 1 {
    } else {
      assert Relaunch(versions[j - 1], tags[j - 1], versions[j]);
      ChainTagsRise(versions, tags, i, j - 1);
    }
  }

  lemma {:induction false} DistinctWithin(tags: seq<string>, published: set<string>)
    requires NoDup(tags) && forall x :: x in tags ==> x in published
    ensures |tags| <= |published|
    decreases |tags|
  {
    if tags != [] {
      var last := tags[|tags| - 1];
      assert last !in tags[..|tags| - 1];
      DistinctWithin(tags[..|tags| - 1], published - {last});
    }
  }

  /** No restart loop: a process relaunches at most once per published tag, whatever each channel installs. */
  lemma RelaunchesAreBounded(versions: seq<string>, tags: seq<string>, published: set<string>)
    requires Chain(versions, tags) && forall x :: x in tags ==> x in published
    ensures |tags| <= |published|
  {
    forall i, j | 0 <= i < j < |tags| ensures tags[i] != tags[j] {
      ChainTagsRise(versions, tags, i, j);
    }
    DistinctWithin(tags, published);
  }

  /**
   Only the numbers are compared: a pre-release of a version is neither older nor newer than it,
   against Semantic Versioning 2.0.0 item 11, so such a build never upgrades to its own release.
   */
  lemma PrereleaseIsNotOlder(t: Triple, suffix: string)
    requires IsTriple(t) && (suffix == "" || !IsSpace(suffix[|suffix| - 1]))
    ensures !Newer(Canonical(t) + "-" + suffix, Canonical(t)) && !Newer(Canonical(t), Canonical(t) + "-" + suffix)
  {
    ParseCanonical(t);
    ParseSuffixed(t, suffix);
    SameTripleIsNotNewer(Canonical(t), Canonical(t) + "-" + suffix);
  }

  lemma ParseSuffixed(t: Triple, suffix: string)
    requires IsTriple(t) && (suffix == "" || !IsSpace(suffix[|suffix| - 1]))
    ensures Parse(Canonical(t) + "-" + suffix) == Some(t)
  {
    ParseIsLenient(t, true, Some(suffix), "", "");
    TagIsSpelled(Dotted(t), suffix);
  }

  lemma TagIsSpelled(body: string, suffix: string)
    ensures "" + Tagged(true, body, Some(suffix)) + "" == "v" + body + "-" + suffix
  {
  }

  lemma SameTripleIsNotNewer(a: string, b: string)
    requires Parse(a) == Parse(b)
    ensures !Newer(a, b) && !Newer(b, a)
  {
  }
}
