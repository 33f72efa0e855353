/** String operations the source takes from the Rust and Python standard
    libraries (`trim`, `trim_end_matches`, `split`, `lines`, `join`, `replace`,
    `ends_with`, `includes`, `Ord for String`), defined over `seq<char>`. */
module Text {
  import opened Wrappers

  /** ASCII whitespace as `str::trim` and Python's `str.strip` see it. */
  predicate IsSpace(c: char) {
    c == ' ' || c == '\t' || c == '\n' || c == '\r' || c == '\U{000B}' || c == '\U{000C}'
  }

  predicate IsBlank(s: string) {
    forall i :: 0 <= i < |s| ==> IsSpace(s[i])
  }

  /** `s` with its leading whitespace removed. */
  function TrimStart(s: string): (r: string)
    ensures |r| <= |s| && r == s[|s| - |r|..]
    ensures forall i :: 0 <= i < |s| - |r| ==> IsSpace(s[i])
    ensures r != [] ==> !IsSpace(r[0])
  {
    if s != [] && IsSpace(s[0]) then
      var r := TrimStart(s[1..]);
      assert s[1..][|s[1..]| - |r|..] == s[|s| - |r|..];
      assert forall i :: 1 <= i < |s| ==> s[i] == s[1..][i - 1];
      r
    else
      s
  }

  /** `s` with its trailing whitespace removed. */
  function TrimEnd(s: string): (r: string)
    ensures |r| <= |s| && r == s[..|r|]
    ensures forall i :: |r| <= i < |s| ==> IsSpace(s[i])
    ensures r != [] ==> !IsSpace(r[|r| - 1])
  {
    if s != [] && IsSpace(s[|s| - 1]) then TrimEnd(s[..|s| - 1]) else s
  }

  /** `r` is `s` less some whitespace at either end. */
  ghost predicate IsTrimmedSlice(r: string, s: string) {
    exists a :: TrimmedAt(r, s, a)
  }

  /** `r` is the slice of `s` starting at `a`, and only whitespace is outside it. */
  ghost predicate TrimmedAt(r: string, s: string, a: int) {
    0 <= a && a + |r| <= |s| && r == s[a..a + |r|]
      && (forall i :: 0 <= i < a ==> IsSpace(s[i]))
      && (forall i :: a + |r| <= i < |s| ==> IsSpace(s[i]))
  }

  /** Neither end of `r` is whitespace. */
  predicate NoSpaceAtEnds(r: string) {
    r == [] || (!IsSpace(r[0]) && !IsSpace(r[|r| - 1]))
  }

  /** Rust `str::trim` / Python `str.strip()`. */
  function Trim(s: string): (r: string)
    ensures IsTrimmedSlice(r, s)
    ensures NoSpaceAtEnds(r)
    ensures IsBlank(s) <==> r == []
  {
    TrimmedSlice(s);
    TrimEnd(TrimStart(s))
  }

  /** Trimming the start and then the end leaves a slice of `s` with only
      whitespace outside it and none at its ends, and nothing exactly when
      `s` is blank. */
  lemma TrimmedSlice(s: string)
    ensures IsTrimmedSlice(TrimEnd(TrimStart(s)), s)
    ensures NoSpaceAtEnds(TrimEnd(TrimStart(s)))
    ensures IsBlank(s) <==> TrimEnd(TrimStart(s)) == []
  {
    var t := TrimStart(s);
    SuffixThenPrefix(s, t, TrimEnd(t));
  }

  /** The same, for any suffix `t` of `s` behind whitespace whose first
      character is not whitespace, and any prefix `r` of `t` before
      whitespace whose last character is not whitespace. */
  lemma SuffixThenPrefix(s: string, t: string, r: string)
    requires |t| <= |s| && t == s[|s| - |t|..]
    requires forall i :: 0 <= i < |s| - |t| ==> IsSpace(s[i])
    requires t != [] ==> !IsSpace(t[0])
    requires |r| <= |t| && r == t[..|r|]
    requires forall i :: |r| <= i < |t| ==> IsSpace(t[i])
    requires r != [] ==> !IsSpace(r[|r| - 1])
    ensures IsTrimmedSlice(r, s)
    ensures NoSpaceAtEnds(r)
    ensures IsBlank(s) <==> r == []
  {
    var a := |s| - |t|;
    assert s[a..][..|r|] == s[a..a + |r|];
    forall i | a <= i < |s|
      ensures s[i] == t[i - a]
    {
    }
    assert TrimmedAt(r, s, a);
    if r != [] {
      assert r[0] == t[0];
    }
  }

  /** Rust `str::trim_end_matches(c)` for a single character. */
  function TrimEndChar(s: string, c: char): (r: string)
    ensures |r| <= |s| && r == s[..|r|]
    ensures forall i :: |r| <= i < |s| ==> s[i] == c
    ensures r == [] || r[|r| - 1] != c
  {
    if s != [] && s[|s| - 1] == c then TrimEndChar(s[..|s| - 1], c) else s
  }

  /** The index of the first `c` in `s`. */
  function IndexOf(s: string, c: char): (r: Option<nat>)
    ensures r.None? ==> c !in s
    ensures r.Some? ==> r.value < |s| && s[r.value] == c && c !in s[..r.value]
  {
    if s == [] then None
    else if s[0] == c then Some(0)
    else match IndexOf(s[1..], c)
      case None => None
      case Some(i) =>
        assert s[..i + 1] == [s[0]] + s[1..][..i];
        Some(i + 1)
  }

  /** Rust `str::split(c)`: the pieces between occurrences of `c`; always at
      least one piece (`""` splits into `[""]`). */
  function Split(s: string, c: char): (parts: seq<string>)
    ensures |parts| >= 1
    ensures forall k :: 0 <= k < |parts| ==> c !in parts[k]
    decreases |s|
  {
    match IndexOf(s, c)
    case None => [s]
    case Some(i) => [s[..i]] + Split(s[i + 1..], c)
  }

  /** `parts.join(sep)`. */
  function Join(parts: seq<string>, sep: string): string {
    if |parts| == 0 then ""
    else if |parts| == 1 then parts[0]
    else parts[0] + sep + Join(parts[1..], sep)
  }

  /** Concatenation of all pieces, in order. */
  function Concat(parts: seq<string>): string {
    if parts == [] then "" else Concat(parts[..|parts| - 1]) + parts[|parts| - 1]
  }

  lemma AppendAssoc<T>(x: seq<T>, y: seq<T>, z: seq<T>)
    ensures x + y + z == x + (y + z)
  {
  }

  lemma {:induction false} ConcatAppend(a: seq<string>, b: seq<string>)
    ensures Concat(a + b) == Concat(a) + Concat(b)
    decreases |b|
  {
    if b == [] {
      assert a + b == a;
    } else {
      var init, last := b[..|b| - 1], b[|b| - 1];
      assert a + b == (a + init) + [last] && b == init + [last];
      ConcatSnoc(a + init, last);
      ConcatSnoc(init, last);
      ConcatAppend(a, init);
      AppendAssoc(Concat(a), Concat(init), last);
    }
  }

  lemma ConcatSnoc(parts: seq<string>, x: string)
    ensures Concat(parts + [x]) == Concat(parts) + x
  {
    assert (parts + [x])[..|parts|] == parts;
  }

  /** Splitting and joining again gives the original text. */
  lemma {:induction false} JoinSplit(s: string, c: char)
    ensures Join(Split(s, c), [c]) == s
    decreases |s|
  {
    match IndexOf(s, c)
    case None =>
    case Some(i) =>
      var head, rest := s[..i], s[i + 1..];
      var tail := Split(rest, c);
      assert Split(s, c) == [head] + tail;
      JoinSplit(rest, c);
      JoinCons(head, tail, [c]);
      assert s == head + [c] + rest;
  }

  /** Joining pieces free of `c` and splitting again gives the pieces back. */
  lemma {:induction false} SplitJoin(parts: seq<string>, c: char)
    requires |parts| >= 1
    requires forall k :: 0 <= k < |parts| ==> c !in parts[k]
    ensures Split(Join(parts, [c]), c) == parts
    decreases |parts|
  {
    if |parts| > 1 {
      var s := Join(parts, [c]);
      var rest := Join(parts[1..], [c]);
      assert s == parts[0] + [c] + rest;
      assert s[..|parts[0]|] == parts[0];
      IndexAfterFree(parts[0], rest, c);
      assert s[|parts[0]| + 1..] == rest;
      SplitJoin(parts[1..], c);
    }
  }

  lemma IndexAfterFree(a: string, b: string, c: char)
    requires c !in a
    ensures IndexOf(a + [c] + b, c) == Some(|a|)
  {
    var s := a + [c] + b;
    assert s[|a|] == c;
    assert s[..|a|] == a;
  }

  /** Rust `str::replace(c, rep)` for a single character. */
  function ReplaceChar(s: string, c: char, rep: string): (r: string)
    ensures c !in s ==> r == s
  {
    if s == [] then []
    else (if s[0] == c then rep else [s[0]]) + ReplaceChar(s[1..], c, rep)
  }

  /** Replacing every `c` is joining the `c`-free pieces with the replacement. */
  lemma {:induction false} ReplaceIsJoin(s: string, c: char, rep: string)
    ensures ReplaceChar(s, c, rep) == Join(Split(s, c), rep)
    decreases |s|
  {
    match IndexOf(s, c)
    case None =>
    case Some(i) =>
      var head, rest := s[..i], s[i + 1..];
      assert s == head + [c] + rest;
      ReplaceIsJoin(rest, c, rep);
      ReplaceStep(head, rest, c, rep);
      JoinCons(head, Split(rest, c), rep);
  }

  lemma ReplaceStep(head: string, rest: string, c: char, rep: string)
    requires c !in head
    ensures ReplaceChar(head + [c] + rest, c, rep) == head + rep + ReplaceChar(rest, c, rep)
  {
    var t := [c] + rest;
    ReplaceFree(head, c, rep);
    ReplaceAppend(head, t, c, rep);
    assert head + [c] + rest == head + t;
    assert t[0] == c && t[1..] == rest;
    assert ReplaceChar(t, c, rep) == rep + ReplaceChar(rest, c, rep);
    AppendAssoc(head, rep, ReplaceChar(rest, c, rep));
  }

  lemma JoinCons(x: string, tail: seq<string>, sep: string)
    requires |tail| >= 1
    ensures Join([x] + tail, sep) == x + sep + Join(tail, sep)
  {
    assert ([x] + tail)[1..] == tail;
  }

  lemma {:induction false} ReplaceFree(s: string, c: char, rep: string)
    requires c !in s
    ensures ReplaceChar(s, c, rep) == s
    decreases |s|
  {
    if s != [] {
      ReplaceFree(s[1..], c, rep);
    }
  }

  lemma {:induction false} ReplaceAppend(a: string, b: string, c: char, rep: string)
    ensures ReplaceChar(a + b, c, rep) == ReplaceChar(a, c, rep) + ReplaceChar(b, c, rep)
    decreases |a|
  {
    if a != [] {
      var h := if a[0] == c then rep else [a[0]];
      var ab := a + b;
      assert ab[0] == a[0] && ab[1..] == a[1..] + b;
      assert ReplaceChar(ab, c, rep) == h + ReplaceChar(ab[1..], c, rep);
      assert ReplaceChar(a, c, rep) == h + ReplaceChar(a[1..], c, rep);
      ReplaceAppend(a[1..], b, c, rep);
    } else {
      assert a + b == b;
    }
  }

  predicate StartsWith(s: string, prefix: string) {
    |prefix| <= |s| && s[..|prefix|] == prefix
  }

  predicate EndsWith(s: string, suffix: string) {
    |suffix| <= |s| && s[|s| - |suffix|..] == suffix
  }

  lemma PrefixOfConcat(a: string, b: string)
    ensures StartsWith(a + b, a)
  {
    assert (a + b)[..|a|] == a;
  }

  lemma SuffixOfConcat(a: string, b: string)
    ensures EndsWith(a + b, b)
  {
    assert (a + b)[|a|..] == b;
  }

  /** JavaScript `String.prototype.includes`. */
  predicate Contains(s: string, sub: string)
    decreases |s|
  {
    StartsWith(s, sub) || (s != [] && Contains(s[1..], sub))
  }

  lemma {:induction false} ContainsAt(s: string, sub: string, k: nat)
    requires k + |sub| <= |s| && s[k..k + |sub|] == sub
    ensures Contains(s, sub)
    decreases k
  {
    if k > 0 {
      assert s[1..][k - 1..k - 1 + |sub|] == sub;
      ContainsAt(s[1..], sub, k - 1);
    }
  }

  lemma InfixOfConcat(a: string, b: string, c: string)
    ensures Contains(a + b + c, b)
  {
    assert (a + b + c)[|a|..|a| + |b|] == b;
    ContainsAt(a + b + c, b, |a|);
  }

  /** `s` minus one trailing carriage return. */
  function DropCR(s: string): string {
    if s != [] && s[|s| - 1] == '\r' then s[..|s| - 1] else s
  }

  /** Rust `str::lines`: split at `\n` (a `\r` before it is dropped); a final
      line ending does not start an empty last line, and `""` has no lines. */
  function Lines(s: string): (r: seq<string>)
    ensures forall k :: 0 <= k < |r| ==> '\n' !in r[k]
    ensures s == [] <==> r == []
    decreases |s|
  {
    if s == [] then []
    else match IndexOf(s, '\n')
      case None => [s]
      case Some(i) => [DropCR(s[..i])] + Lines(s[i + 1..])
  }

  /** For text that neither ends with a line break nor contains a carriage
      return, `lines()` and `split('\n')` agree. */
  lemma {:induction false} LinesIsSplit(s: string)
    requires s != [] && s[|s| - 1] != '\n' && '\r' !in s
    ensures Lines(s) == Split(s, '\n')
    decreases |s|
  {
    match IndexOf(s, '\n')
    case None =>
    case Some(i) =>
      assert '\r' !in s[..i];
      assert s[i + 1..][|s[i + 1..]| - 1] == s[|s| - 1];
      LinesIsSplit(s[i + 1..]);
  }

  /** Byte-wise (code point) lexicographic order: Rust's `Ord for String`. */
  predicate Less(a: string, b: string)
    decreases |a|
  {
    b != [] && (a == [] || a[0] < b[0] || (a[0] == b[0] && Less(a[1..], b[1..])))
  }

  lemma {:induction false} LessIrreflexive(a: string)
    ensures !Less(a, a)
    decreases |a|
  {
    if a != [] {
      LessIrreflexive(a[1..]);
    }
  }

  lemma {:induction false} LessTransitive(a: string, b: string, c: string)
    requires Less(a, b) && Less(b, c)
    ensures Less(a, c)
    decreases |a|
  {
    if a != [] && a[0] == b[0] && b[0] == c[0] {
      LessTransitive(a[1..], b[1..], c[1..]);
    }
  }

  lemma {:induction false} LessTotal(a: string, b: string)
    requires a != b
    ensures Less(a, b) || Less(b, a)
    decreases |a|
  {
    if a != [] && b != [] && a[0] == b[0] {
      assert a == [a[0]] + a[1..] && b == [b[0]] + b[1..];
      LessTotal(a[1..], b[1..]);
    }
  }
}
