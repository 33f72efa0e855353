/** Issue-key extraction: `extract_issue_keys` scans text for
    `\b[A-Z][A-Z0-9]+-\d+\b`, collects the matches in a set and returns them
    sorted. The regular expression is stated directly over ASCII. */
module IssueKeys {
  import opened Wrappers
  import opened Text

  predicate IsWordChar(c: char) {
    ('a' <= c <= 'z') || ('A' <= c <= 'Z') || ('0' <= c <= '9') || c == '_'
  }

  predicate IsUpper(c: char) { 'A' <= c <= 'Z' }

  predicate IsDigit(c: char) { '0' <= c <= '9' }

  /** A character of the project prefix after its first letter: `[A-Z0-9]`. */
  predicate IsPrefixChar(c: char) { IsUpper(c) || IsDigit(c) }

  /** `s` is `[A-Z][A-Z0-9]+-[0-9]+` with its hyphen at index `h`. */
  predicate KeyWithHyphenAt(s: string, h: int) {
    2 <= h < |s| - 1 && IsUpper(s[0])
    && (forall k :: 1 <= k < h ==> IsPrefixChar(s[k]))
    && s[h] == '-'
    && (forall k :: h < k < |s| ==> IsDigit(s[k]))
  }

  /** The shape of an issue key: an upper-case letter, one or more upper-case
      letters or digits, a hyphen, one or more digits. */
  ghost predicate IsIssueKey(s: string) {
    exists h :: KeyWithHyphenAt(s, h)
  }

  /** `\b` before a word character at index `i`. */
  predicate BoundaryBefore(text: string, i: nat)
    requires i <= |text|
  {
    i == 0 || !IsWordChar(text[i - 1])
  }

  /** `\b` after a word character ending at index `j`. */
  predicate BoundaryAfter(text: string, j: nat)
    requires j <= |text|
  {
    j == |text| || !IsWordChar(text[j])
  }

  /** The pattern matches `text[i..j]`. */
  ghost predicate KeyAt(text: string, i: int, j: int) {
    0 <= i < j <= |text| && BoundaryBefore(text, i) && BoundaryAfter(text, j)
    && IsIssueKey(text[i..j])
  }

  /** Every string the pattern matches somewhere in `text`. */
  ghost function MatchSet(text: string): set<string> {
    MatchesBefore(text, |text|)
  }

  /** The matched strings that start before index `n`. */
  ghost function MatchesBefore(text: string, n: int): set<string> {
    set i, j | 0 <= i < n && i < j <= |text| && KeyAt(text, i, j) :: text[i..j]
  }

  /** End of the run of `[A-Z0-9]` starting at `from`. */
  function PrefixRunEnd(text: string, from: nat): (e: nat)
    requires from <= |text|
    ensures from <= e <= |text|
    ensures forall k :: from <= k < e ==> IsPrefixChar(text[k])
    ensures e == |text| || !IsPrefixChar(text[e])
    decreases |text| - from
  {
    if from < |text| && IsPrefixChar(text[from]) then PrefixRunEnd(text, from + 1) else from
  }

  /** End of the run of `[0-9]` starting at `from`. */
  function DigitRunEnd(text: string, from: nat): (e: nat)
    requires from <= |text|
    ensures from <= e <= |text|
    ensures forall k :: from <= k < e ==> IsDigit(text[k])
    ensures e == |text| || !IsDigit(text[e])
    decreases |text| - from
  {
    if from < |text| && IsDigit(text[from]) then DigitRunEnd(text, from + 1) else from
  }

  /** The end of the match that starts at index `i`, if one does. Both
      quantifiers are greedy and nothing they consume is a hyphen or a
      non-digit, so backtracking never finds a different match. */
  function MatchAt(text: string, i: nat): (r: Option<nat>)
    requires i < |text|
    ensures r.Some? ==> KeyAt(text, i, r.value)
  {
    if !(BoundaryBefore(text, i) && IsUpper(text[i])) then None
    else
      var p := PrefixRunEnd(text, i + 1);
      if p == i + 1 || p == |text| || text[p] != '-' then None
      else
        var q := DigitRunEnd(text, p + 1);
        if q == p + 1 || !BoundaryAfter(text, q) then None
        else
          assert KeyWithHyphenAt(text[i..q], p - i);
          Some(q)
  }

  /** MatchAt finds every match: a match at `i` ends where MatchAt says. */
  lemma MatchAtComplete(text: string, i: int, j: int)
    requires KeyAt(text, i, j)
    ensures MatchAt(text, i) == Some(j)
  {
    var s := text[i..j];
    var h :| KeyWithHyphenAt(s, h);
    assert IsUpper(text[i]) by { assert s[0] == text[i]; }
    var p := PrefixRunEnd(text, i + 1);
    assert forall k :: i + 1 <= k < i + h ==> IsPrefixChar(text[k]) by {
      forall k | i + 1 <= k < i + h ensures IsPrefixChar(text[k]) {
        assert s[k - i] == text[k];
      }
    }
    assert text[i + h] == '-' by { assert s[h] == text[i + h]; }
    assert p == i + h;
    var q := DigitRunEnd(text, p + 1);
    assert forall k :: p + 1 <= k < j ==> IsDigit(text[k]) by {
      forall k | p + 1 <= k < j ensures IsDigit(text[k]) {
        assert s[k - i] == text[k];
      }
    }
    assert q == j;
  }

  /** No match starts strictly inside another match. */
  lemma NoMatchInside(text: string, i: int, e: int, a: int, b: int)
    requires KeyAt(text, i, e) && i < a < e
    ensures !KeyAt(text, a, b)
  {
    var s := text[i..e];
    var h :| KeyWithHyphenAt(s, h);
    assert s[a - 1 - i] == text[a - 1] && s[a - i] == text[a];
    assert IsWordChar(text[a - 1]) || IsDigit(text[a]);
    if KeyAt(text, a, b) {
      assert false;
    }
  }

  lemma NoMatchStep(text: string, i: nat)
    requires i < |text| && MatchAt(text, i).None?
    ensures MatchesBefore(text, i + 1) == MatchesBefore(text, i)
  {
    forall x | x in MatchesBefore(text, i + 1) ensures x in MatchesBefore(text, i) {
      var a, b :| 0 <= a < i + 1 && a < b <= |text| && KeyAt(text, a, b) && x == text[a..b];
      if a == i {
        MatchAtComplete(text, a, b);
      }
    }
  }

  lemma MatchStep(text: string, i: nat, e: nat)
    requires i < |text| && MatchAt(text, i) == Some(e)
    ensures i < e <= |text|
    ensures MatchesBefore(text, e) == MatchesBefore(text, i) + {text[i..e]}
  {
    assert KeyAt(text, i, e);
    forall x | x in MatchesBefore(text, e)
      ensures x in MatchesBefore(text, i) + {text[i..e]}
    {
      var a, b :| 0 <= a < e && a < b <= |text| && KeyAt(text, a, b) && x == text[a..b];
      if a == i {
        MatchAtComplete(text, a, b);
      } else if a > i {
        NoMatchInside(text, i, e, a, b);
      }
    }
    assert text[i..e] in MatchesBefore(text, e);
  }

  /** Strictly ascending, hence free of duplicates. */
  ghost predicate StrictlyAscending(s: seq<string>) {
    forall i, j :: 0 <= i < j < |s| ==> Less(s[i], s[j])
  }

  lemma AscendingCons(y: string, t: seq<string>)
    requires StrictlyAscending(t)
    requires forall k :: k in t ==> Less(y, k)
    ensures StrictlyAscending([y] + t)
  {
    forall i, j | 0 <= i < j < |[y] + t| ensures Less(([y] + t)[i], ([y] + t)[j]) {
      if i == 0 {
        assert ([y] + t)[j] == t[j - 1];
      } else {
        assert ([y] + t)[i] == t[i - 1] && ([y] + t)[j] == t[j - 1];
      }
    }
  }

  /** Inserts a new key into a strictly ascending sequence. */
  function Insert(s: seq<string>, x: string): (r: seq<string>)
    requires StrictlyAscending(s) && x !in s
    ensures StrictlyAscending(r)
    ensures forall k :: k in r <==> k in s || k == x
  {
    if s == [] then [x]
    else if Less(x, s[0]) then
      assert forall k :: k in s ==> Less(x, k) by {
        forall k | k in s ensures Less(x, k) {
          var j :| 0 <= j < |s| && s[j] == k;
          if j > 0 { LessTransitive(x, s[0], k); }
        }
      }
      AscendingCons(x, s);
      [x] + s
    else
      LessTotal(x, s[0]);
      assert StrictlyAscending(s[1..]);
      var t := Insert(s[1..], x);
      assert forall k :: k in t ==> Less(s[0], k) by {
        forall k | k in t ensures Less(s[0], k) {
          if k != x {
            var j :| 0 <= j < |s[1..]| && s[1..][j] == k;
            assert s[j + 1] == k;
          }
        }
      }
      AscendingCons(s[0], t);
      assert s == [s[0]] + s[1..];
      [s[0]] + t
  }

  /** A strictly ascending sequence is determined by its elements. */
  lemma {:induction false} AscendingUnique(a: seq<string>, b: seq<string>)
    requires StrictlyAscending(a) && StrictlyAscending(b)
    requires forall k :: k in a <==> k in b
    ensures a == b
    decreases |a| + |b|, if a == [] then 1 else 0
  {
    if a != [] {
      assert a[0] in b;
      assert b != [];
      if a[0] != b[0] {
        var i :| 0 <= i < |b| && b[i] == a[0];
        assert b[0] in b;
        var j :| 0 <= j < |a| && a[j] == b[0];
        assert Less(b[0], a[0]);
        assert Less(a[0], b[0]);
        LessTransitive(a[0], b[0], a[0]);
        LessIrreflexive(a[0]);
      }
      assert StrictlyAscending(a[1..]) && StrictlyAscending(b[1..]);
      forall k ensures k in a[1..] <==> k in b[1..] {
        if k in a[1..] {
          var i :| 0 <= i < |a[1..]| && a[1..][i] == k;
          assert Less(a[0], a[i + 1]);
          if k == b[0] { LessIrreflexive(k); }
          assert k in b && k != b[0];
          assert b == [b[0]] + b[1..];
        }
        if k in b[1..] {
          var i :| 0 <= i < |b[1..]| && b[1..][i] == k;
          assert Less(b[0], b[i + 1]);
          if k == a[0] { LessIrreflexive(k); }
          assert k in a && k != a[0];
          assert a == [a[0]] + a[1..];
        }
      }
      AscendingUnique(a[1..], b[1..]);
      assert a == [a[0]] + a[1..] && b == [b[0]] + b[1..];
    } else if b != [] {
      AscendingUnique(b, a);
    }
  }

  /** The elements of `s` in ascending order. */
  ghost function SortedKeys(s: set<string>): (r: seq<string>)
    ensures StrictlyAscending(r)
    ensures forall k :: k in r <==> k in s
    decreases |s|
  {
    if s == {} then []
    else
      var y :| y in s;
      Insert(SortedKeys(s - {y}), y)
  }

  /** `extract_issue_keys`: the set of matches, sorted ascending. */
  method ExtractIssueKeys(text: string) returns (keys: seq<string>)
    ensures keys == SortedKeys(MatchSet(text))
    ensures StrictlyAscending(keys)
    ensures forall k :: k in keys <==> k in MatchSet(text)
  {
    var found := FindMatches(text);
    keys := SortedSet(found);
  }

  /** The `find_iter` loop: every match, collected into a set. */
  method FindMatches(text: string) returns (found: set<string>)
    ensures found == MatchSet(text)
  {
    found := {};
    var i := 0;
    while i < |text|
      invariant 0 <= i <= |text|
      invariant found == MatchesBefore(text, i)
      decreases |text| - i
    {
      match MatchAt(text, i)
      case None =>
        NoMatchStep(text, i);
        i := i + 1;
      case Some(e) =>
        MatchStep(text, i, e);
        found := found + {text[i..e]};
        i := e;
    }
  }

  /** The set's elements collected into a vector and sorted ascending. */
  method SortedSet(found: set<string>) returns (keys: seq<string>)
    ensures keys == SortedKeys(found)
  {
    keys := [];
    var rest := found;
    while rest != {}
      invariant rest <= found
      invariant StrictlyAscending(keys)
      invariant forall k :: k in keys <==> k in found && k !in rest
      decreases |rest|
    {
      var k :| k in rest;
      keys := Insert(keys, k);
      rest := rest - {k};
    }
    AscendingUnique(keys, SortedKeys(found));
  }

  /** Keys extracted from two texts with the same matches are identical:
      repeating or reordering occurrences changes nothing. */
  lemma SameMatchesSameKeys(a: string, b: string, ka: seq<string>, kb: seq<string>)
    requires MatchSet(a) == MatchSet(b)
    requires StrictlyAscending(ka) && (forall k :: k in ka <==> k in MatchSet(a))
    requires StrictlyAscending(kb) && (forall k :: k in kb <==> k in MatchSet(b))
    ensures ka == kb
  {
    AscendingUnique(ka, kb);
  }

  /** Every extracted key has the key shape, starts with an upper-case letter
      and occurs in the text between word boundaries. */
  lemma ExtractedKeyShape(text: string, k: string)
    requires k in MatchSet(text)
    ensures IsIssueKey(k) && IsUpper(k[0]) && |k| >= 4
    ensures exists i, j :: KeyAt(text, i, j) && text[i..j] == k
  {
    var i, j :| 0 <= i < |text| && i < j <= |text| && KeyAt(text, i, j) && k == text[i..j];
    var h :| KeyWithHyphenAt(k, h);
  }

  /** Text without an upper-case letter (in particular the empty text)
      yields no keys: lower-case prefixes never match. */
  lemma NoUpperNoKeys(text: string)
    requires forall c :: c in text ==> !IsUpper(c)
    ensures MatchSet(text) == {}
  {

  }
}
