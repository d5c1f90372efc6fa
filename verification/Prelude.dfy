/** Datatypes and arithmetic shared by the other modules. */
module Prelude {

  datatype Option<+T> = None | Some(value: T)

  /** The answer of a check that either passes with a value or names its refusal. */
  datatype Result<+T, +E> = Ok(value: T) | Err(error: E)

  function Min(a: int, b: int): int {
    if a < b then a else b
  }

  function Max(a: int, b: int): int {
    if a > b then a else b
  }

  /** A Go int64 after an operation that may leave its range. */
  function Wrap64(x: int): int {
    (x + 0x8000_0000_0000_0000) % 0x1_0000_0000_0000_0000 - 0x8000_0000_0000_0000
  }

  /** strings.Contains. */
  predicate Contains(s: string, part: string) {
    part <= s || (s != "" && Contains(s[1..], part))
  }

  /** A string contains a part exactly when the part stands somewhere in it. */
  lemma {:induction false} ContainsExactly(s: string, part: string)
    ensures Contains(s, part) <==> exists i :: 0 <= i <= |s| && part <= s[i..]
    decreases |s|
  {
    assert s[0..] == s;
    if s != "" {
      ContainsExactly(s[1..], part);
      forall i | 0 <= i <= |s[1..]| ensures s[1..][i..] == s[i + 1..] {}
      if i :| 1 <= i <= |s| && part <= s[i..] { assert s[1..][i - 1..] == s[i..]; }
      if i :| 0 <= i <= |s[1..]| && part <= s[1..][i..] { assert part <= s[i + 1..]; }
    }
  }

  predicate NoDup<T(==)>(s: seq<T>) {
    forall i, j :: 0 <= i < j < |s| ==> s[i] != s[j]
  }

  // ------------------------------------------------------------ strings

  /** unicode.IsSpace. */
  predicate IsSpace(c: char) {
    c == ' ' || '\t' <= c <= '\r' || c == '\U{0085}' || c == '\U{00A0}' || c == '\U{1680}'
    || '\U{2000}' <= c <= '\U{200A}' || c == '\U{2028}' || c == '\U{2029}' || c == '\U{202F}'
    || c == '\U{205F}' || c == '\U{3000}'
  }

  function TrimLeft(s: string): string {
    if s != "" && IsSpace(s[0]) then TrimLeft(s[1..]) else s
  }

  function TrimRight(s: string): string {
    if s != "" && IsSpace(s[|s| - 1]) then TrimRight(s[..|s| - 1]) else s
  }

  /** strings.TrimSpace. */
  function TrimSpace(s: string): string {
    TrimRight(TrimLeft(s))
  }

  predicate AllSpace(s: string) {
    forall i :: 0 <= i < |s| ==> IsSpace(s[i])
  }

  lemma {:induction false} TrimmingShortens(s: string)
    ensures |TrimLeft(s)| <= |s| && |TrimRight(s)| <= |s|
    decreases |s|
  {
    if s != "" {
      TrimmingShortens(s[1..]);
      TrimmingShortens(s[..|s| - 1]);
    }
  }

  /** A string is trimmed already exactly when no space stands at its ends. */
  lemma TrimmedExactly(s: string)
    ensures TrimSpace(s) == s <==> s == "" || (!IsSpace(s[0]) && !IsSpace(s[|s| - 1]))
  {
    if s != "" {
      TrimmingShortens(s[1..]);
      TrimmingShortens(TrimLeft(s));
      TrimmingShortens(s[..|s| - 1]);
    }
  }

  /** Trimming leaves what stands between the space at both ends. */
  lemma {:induction false} TrimSpaceLeaves(before: string, body: string, after: string)
    requires AllSpace(before) && AllSpace(after)
    requires body != "" ==> !IsSpace(body[0]) && !IsSpace(body[|body| - 1])
    ensures TrimSpace(before + body + after) == body
    decreases |before| + |after|
  {
    var s := before + body + after;
    if before != "" {
      assert s[1..] == before[1..] + body + after;
      TrimSpaceLeaves(before[1..], body, after);
    } else if body == "" {
      if after != "" {
        assert s == after && s[1..] == after[1..] && "" + "" + after[1..] == after[1..];
        TrimSpaceLeaves("", "", after[1..]);
      }
    } else {
      assert s[0] == body[0];
      if after == "" {
        assert s == body;
      } else {
        var shorter := after[..|after| - 1];
        assert s[..|s| - 1] == before + body + shorter;
        TrimSpaceLeaves(before, body, shorter);
        assert TrimLeft(s) == s && TrimLeft(s[..|s| - 1]) == s[..|s| - 1];
      }
    }
  }

  /** strings.Split, on one character. */
  function Split(s: string, sep: char): (r: seq<string>)
    ensures |r| >= 1
    decreases |s|
  {
    if s == "" then [""]
    else if s[0] == sep then [""] + Split(s[1..], sep)
    else
      var rest := Split(s[1..], sep);
      [[s[0]] + rest[0]] + rest[1..]
  }

  /** A separator-free head comes off first. */
  lemma {:induction false} SplitHead(head: string, sep: char, tail: string)
    requires sep !in head
    ensures Split(head + [sep] + tail, sep) == [head] + Split(tail, sep)
    decreases |head|
  {
    var s := head + [sep] + tail;
    if head == "" {
      assert s[1..] == tail;
    } else {
      assert s[1..] == head[1..] + [sep] + tail;
      SplitHead(head[1..], sep, tail);
      assert s[0] == head[0] != sep;
      var rest := Split(s[1..], sep);
      assert rest[0] == head[1..] && rest[1..] == Split(tail, sep);
      assert [head[0]] + head[1..] == head;
    }
  }

  lemma {:induction false} SplitNone(s: string, sep: char)
    requires sep !in s
    ensures Split(s, sep) == [s]
    decreases |s|
  {
    if s != "" {
      SplitNone(s[1..], sep);
      assert s[0] != sep && [s[0]] + s[1..] == s;
      assert Split(s[1..], sep)[1..] == [];
    }
  }

  /** strings.Join, on one character. */
  function Joined(parts: seq<string>, sep: char): string
    requires parts != []
    decreases |parts|
  {
    if |parts| == 1 then parts[0] else parts[0] + [sep] + Joined(parts[1..], sep)
  }

  /** The parts of a split hold no separator and join to the whole; and they are the only such parts. */
  lemma {:induction false} SplitIsJoined(s: string, sep: char)
    ensures Joined(Split(s, sep), sep) == s
    ensures forall p :: p in Split(s, sep) ==> sep !in p
    decreases |s|
  {
    if s != "" {
      SplitIsJoined(s[1..], sep);
      var rest := Split(s[1..], sep);
      if s[0] == sep {
        assert ([""] + rest)[1..] == rest;
        assert s == "" + [sep] + s[1..];
      } else {
        var all := [[s[0]] + rest[0]] + rest[1..];
        assert all[1..] == rest[1..];
        assert s == [s[0]] + s[1..];
        assert sep !in [s[0]] + rest[0];
      }
    }
  }

  lemma {:induction false} SplitOfJoined(parts: seq<string>, sep: char)
    requires parts != [] && forall p :: p in parts ==> sep !in p
    ensures Split(Joined(parts, sep), sep) == parts
    decreases |parts|
  {
    if |parts| == 1 {
      SplitNone(parts[0], sep);
    } else {
      SplitOfJoined(parts[1..], sep);
      SplitHead(parts[0], sep, Joined(parts[1..], sep));
    }
  }

  // ------------------------------------------------------------ Go's order on strings

  /** < on strings. */
  predicate Below(a: string, b: string)
    decreases |a|
  {
    if a == [] then b != []
    else b != [] && (a[0] < b[0] || (a[0] == b[0] && Below(a[1..], b[1..])))
  }

  lemma {:induction false} BelowIsStrict(a: string, b: string)
    ensures a == b ==> !Below(a, b)
    ensures Below(a, b) || Below(b, a) || a == b
    ensures Below(a, b) ==> !Below(b, a)
    decreases |a|
  {
    if a != [] && b != [] && a[0] == b[0] {
      BelowIsStrict(a[1..], b[1..]);
      assert a == [a[0]] + a[1..] && b == [b[0]] + b[1..];
    }
  }

  lemma {:induction false} BelowTransitive(a: string, b: string, c: string)
    requires Below(a, b) && Below(b, c)
    ensures Below(a, c)
    decreases |a|
  {
    if a != [] && a[0] == b[0] == c[0] { BelowTransitive(a[1..], b[1..], c[1..]); }
  }

  function InsertString(x: string, sorted: seq<string>): seq<string>
    decreases |sorted|
  {
    if sorted == [] || !Below(sorted[0], x) then [x] + sorted else [sorted[0]] + InsertString(x, sorted[1..])
  }

  /** sort.Strings. */
  function SortStrings(s: seq<string>): seq<string>
    decreases |s|
  {
    if s == [] then [] else InsertString(s[0], SortStrings(s[1..]))
  }

  predicate InOrder(s: seq<string>) {
    forall i, j :: 0 <= i < j < |s| ==> !Below(s[j], s[i])
  }

  lemma {:induction false} InsertStringInOrder(x: string, sorted: seq<string>)
    requires InOrder(sorted)
    ensures InOrder(InsertString(x, sorted))
    ensures multiset(InsertString(x, sorted)) == multiset(sorted) + multiset{x}
    decreases |sorted|
  {
    if sorted == [] {
    } else if !Below(sorted[0], x) {
      NoneBelow(x, sorted);
      HeadInOrder(x, sorted);
    } else {
      InsertStringInOrder(x, sorted[1..]);
      assert sorted == [sorted[0]] + sorted[1..];
      var rest := InsertString(x, sorted[1..]);
      BelowIsStrict(sorted[0], x);
      forall y | y in rest ensures !Below(y, sorted[0]) {
        assert y in multiset(rest);
        assert y == x || y in multiset(sorted[1..]);
      }
      HeadInOrder(sorted[0], rest);
    }
  }

  lemma HeadInOrder(x: string, s: seq<string>)
    requires InOrder(s) && forall y :: y in s ==> !Below(y, x)
    ensures InOrder([x] + s)
  {
  }

  lemma NoneBelow(x: string, sorted: seq<string>)
    requires InOrder(sorted) && sorted != [] && !Below(sorted[0], x)
    ensures forall y :: y in sorted ==> !Below(y, x)
  {
    forall j | 0 <= j < |sorted| ensures !Below(sorted[j], x) {
      if j > 0 && Below(sorted[j], x) {
        BelowIsStrict(sorted[0], x);
        if sorted[0] != x { BelowTransitive(sorted[j], x, sorted[0]); }
      }
    }
  }

  lemma {:induction false} SortStringsInOrder(s: seq<string>)
    ensures InOrder(SortStrings(s)) && multiset(SortStrings(s)) == multiset(s)
    decreases |s|
  {
    if s != [] {
      SortStringsInOrder(s[1..]);
      InsertStringInOrder(s[0], SortStrings(s[1..]));
      assert s == [s[0]] + s[1..];
    }
  }

  lemma FirstIsLeast(s: seq<string>, x: string)
    requires InOrder(s) && x in s
    ensures !Below(x, s[0])
  {
    var i :| 0 <= i < |s| && s[i] == x;
    if i == 0 { BelowIsStrict(x, x); }
  }

  lemma SameFirst(a: seq<string>, b: seq<string>)
    requires InOrder(a) && InOrder(b) && multiset(a) == multiset(b) && a != [] && b != []
    ensures a[0] == b[0]
  {
    assert a[0] in multiset(b) && b[0] in multiset(a);
    FirstIsLeast(a, b[0]);
    FirstIsLeast(b, a[0]);
    BelowIsStrict(a[0], b[0]);
  }

  lemma RestInOrder(s: seq<string>)
    requires InOrder(s) && s != []
    ensures InOrder(s[1..])
  {
  }

  lemma {:induction false} OrderIsFixed(a: seq<string>, b: seq<string>)
    requires InOrder(a) && InOrder(b) && multiset(a) == multiset(b)
    ensures a == b
    decreases |a|
  {
    assert |a| == |multiset(a)| == |multiset(b)| == |b|;
    if a != [] {
      SameFirst(a, b);
      RestBag(a);
      RestBag(b);
      RestInOrder(a);
      RestInOrder(b);
      OrderIsFixed(a[1..], b[1..]);
      assert a == [a[0]] + a[1..] && b == [b[0]] + b[1..];
    }
  }

  lemma RestBag(s: seq<string>)
    requires s != []
    ensures multiset(s[1..]) == multiset(s) - multiset{s[0]}
  {
    assert s == [s[0]] + s[1..];
  }

  /** Two lists sort to the same list exactly when one is a rearrangement of the other. */
  lemma SortsAlikeExactly(a: seq<string>, b: seq<string>)
    ensures SortStrings(a) == SortStrings(b) <==> multiset(a) == multiset(b)
  {
    SortStringsInOrder(a);
    SortStringsInOrder(b);
    if multiset(a) == multiset(b) { OrderIsFixed(SortStrings(a), SortStrings(b)); }
  }
}
