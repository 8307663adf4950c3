/**
  The parts of Python's `str` and `sorted` that the bot relies on: whitespace stripping,
  lower-casing, `isalpha`, `isdigit`, `split`, and code-point ordering of strings.

  Character classes are over a fixed alphabet: ASCII Latin letters and the Cyrillic block
  U+0400..U+045F. `IsSpace` is exactly the set of characters Python's `str.isspace` accepts.
*/
module Text {

  /** Python's `str.isspace` for one character. */
  predicate IsSpace(c: char) {
    c == ' ' || ('\t' <= c <= '\r') || ('\U{001C}' <= c <= '\U{001F}')
    || c == '\U{0085}' || c == '\U{00A0}' || c == '\U{1680}'
    || ('\U{2000}' <= c <= '\U{200A}') || c == '\U{2028}' || c == '\U{2029}'
    || c == '\U{202F}' || c == '\U{205F}' || c == '\U{3000}'
  }

  /** `str.isalpha` for one character, restricted to Latin and Cyrillic letters. */
  predicate IsLetter(c: char) {
    ('a' <= c <= 'z') || ('A' <= c <= 'Z') || ('\U{0400}' <= c <= '\U{045F}')
  }

  predicate IsDigit(c: char) {
    '0' <= c <= '9'
  }

  /** `str.lower` for one character: upper-case Latin and Cyrillic letters to lower case. */
  function Lower(c: char): (d: char)
    ensures IsLetter(c) <==> IsLetter(d)
    ensures IsSpace(c) <==> IsSpace(d)
    ensures !('A' <= d <= 'Z') && !('\U{0400}' <= d <= '\U{042F}')
  {
    if 'A' <= c <= 'Z' then (c as int + 32) as char
    else if '\U{0410}' <= c <= '\U{042F}' then (c as int + 32) as char
    else if '\U{0400}' <= c <= '\U{040F}' then (c as int + 80) as char
    else c
  }

  /** Lower-casing twice is lower-casing once. */
  lemma LowerIdempotent(c: char)
    ensures Lower(Lower(c)) == Lower(c)
  {
  }

  /** `s.lower()`. */
  function LowerStr(s: string): (r: string)
    ensures |r| == |s|
    ensures forall i :: 0 <= i < |s| ==> r[i] == Lower(s[i])
  {
    seq(|s|, i requires 0 <= i < |s| => Lower(s[i]))
  }

  /** `s.isalpha()`: non-empty and made of letters only. */
  predicate IsAlpha(s: string) {
    |s| > 0 && forall i :: 0 <= i < |s| ==> IsLetter(s[i])
  }

  /** `s.isdigit()`: non-empty and made of decimal digits only. */
  predicate IsDigits(s: string) {
    |s| > 0 && forall i :: 0 <= i < |s| ==> IsDigit(s[i])
  }

  /** `int(s)` for a string of decimal digits. */
  function ParseNat(s: string): nat
    requires forall i :: 0 <= i < |s| ==> IsDigit(s[i])
  {
    if s == [] then 0
    else
      assert IsDigit(s[|s| - 1]);
      ParseNat(s[..|s| - 1]) * 10 + (s[|s| - 1] as int - '0' as int)
  }

  /** Leading whitespace removed. */
  function TrimStart(s: string): (r: string)
    ensures |r| <= |s| && r == s[|s| - |r|..]
    ensures forall i :: 0 <= i < |s| - |r| ==> IsSpace(s[i])
    ensures r == [] || !IsSpace(r[0])
  {
    if s != [] && IsSpace(s[0]) then TrimStart(s[1..]) else s
  }

  /** Trailing whitespace removed. */
  function TrimEnd(s: string): (r: string)
    ensures |r| <= |s| && r == s[..|r|]
    ensures forall i :: |r| <= i < |s| ==> IsSpace(s[i])
    ensures r == [] || !IsSpace(r[|r| - 1])
  {
    if s != [] && IsSpace(s[|s| - 1]) then TrimEnd(s[..|s| - 1]) else s
  }

  /** A string that neither starts nor ends with whitespace. */
  predicate Trimmed(s: string) {
    s == [] || (!IsSpace(s[0]) && !IsSpace(s[|s| - 1]))
  }

  /** `s.strip()`: whitespace removed at both ends, and only there. */
  function Strip(s: string): (r: string)
    ensures |r| <= |s|
    ensures Trimmed(r)
  {
    TrimEnd(TrimStart(s))
  }

  /** Stripping changes nothing once there is no whitespace at either end. */
  lemma StripTrimmed(s: string)
    requires Trimmed(s)
    ensures Strip(s) == s
  {
  }

  /** A string without any whitespace is its own strip. */
  lemma StripNoSpace(s: string)
    requires forall i :: 0 <= i < |s| ==> !IsSpace(s[i])
    ensures Strip(s) == s
  {
    StripTrimmed(s);
  }

  /** The position of the first occurrence of `c` in `s` (Python's `s.index(c)`). */
  function IndexOf<T(==)>(s: seq<T>, c: T): (k: nat)
    requires c in s
    ensures k < |s| && s[k] == c && c !in s[..k]
  {
    if s[0] == c then 0 else 1 + IndexOf(s[1..], c)
  }

  /** `x = h + (y + z)` regrouped as `(h + y) + z`, named `v + z`. */
  lemma Regroup<T>(x: seq<T>, h: seq<T>, w: seq<T>, y: seq<T>, z: seq<T>, v: seq<T>)
    requires x == h + w && w == y + z && v == h + y
    ensures x == v + z
  {
  }

  /** Splitting off the head of the left operand of a concatenation. */
  lemma ConcatCons<T>(a: seq<T>, b: seq<T>)
    requires a != []
    ensures a == [a[0]] + a[1..] && a + b == [a[0]] + (a[1..] + b)
  {
  }

  /** In a list without repetitions the first occurrence of an element is its only one. */
  lemma {:induction false} IndexOfDistinct<T>(s: seq<T>, m: nat)
    requires NoDuplicates(s) && m < |s|
    ensures IndexOf(s, s[m]) == m
  {
    if s[0] != s[m] {
      assert s[1..][m - 1] == s[m];
      IndexOfDistinct(s[1..], m - 1);
    }
  }

  /**
    `s.split(sep)` generalised to a set of one-character separators: the pieces between
    separators, including empty ones; a string without separators is one piece.
  */
  function Split(s: string, seps: set<char>): (parts: seq<string>)
    ensures |parts| >= 1
    ensures forall i, j :: 0 <= i < |parts| && 0 <= j < |parts[i]| ==> parts[i][j] !in seps
  {
    if s == [] then [[]]
    else
      var ps := Split(s[..|s| - 1], seps);
      var x := s[|s| - 1];
      if x in seps then ps + [[]]
      else ps[..|ps| - 1] + [ps[|ps| - 1] + [x]]
  }

  /** `sep.join(parts)`. */
  function Join(parts: seq<string>, sep: char): string
    requires |parts| >= 1
  {
    if |parts| == 1 then parts[0]
    else Join(parts[..|parts| - 1], sep) + [sep] + parts[|parts| - 1]
  }

  /** Splitting on one separator and joining with it gives back the input. */
  lemma {:induction false} JoinSplit(s: string, sep: char)
    ensures Join(Split(s, {sep}), sep) == s
  {
    if s != [] {
      var t, x := s[..|s| - 1], s[|s| - 1];
      assert s == t + [x];
      JoinSplit(t, sep);
      var ps := Split(t, {sep});
      SplitSnoc(t, x, {sep});
      if x == sep {
        JoinSnoc(ps, [], sep);
      } else {
        JoinExtendLast(ps, x, sep);
      }
    }
  }

  /** One more character at the end either opens a new piece or extends the last one. */
  lemma SplitSnoc(t: string, x: char, seps: set<char>)
    ensures var ps := Split(t, seps);
      Split(t + [x], seps) == if x in seps then ps + [[]] else ps[..|ps| - 1] + [ps[|ps| - 1] + [x]]
  {
    assert (t + [x])[..|t|] == t;
  }

  lemma JoinSnoc(ps: seq<string>, q: string, sep: char)
    requires |ps| >= 1
    ensures Join(ps + [q], sep) == Join(ps, sep) + [sep] + q
  {
    assert (ps + [q])[..|ps|] == ps;
  }

  /** Extending the last piece extends the joined string by the same characters. */
  lemma JoinExtendLast(ps: seq<string>, x: char, sep: char)
    requires |ps| >= 1
    ensures Join(ps[..|ps| - 1] + [ps[|ps| - 1] + [x]], sep) == Join(ps, sep) + [x]
  {
    if |ps| > 1 {
      var init := ps[..|ps| - 1];
      JoinSnoc(init, ps[|ps| - 1] + [x], sep);
      JoinSnoc(init, ps[|ps| - 1], sep);
      assert init + [ps[|ps| - 1]] == ps;
    }
  }

  /** Code-point lexicographic order on strings (Python's `<=` on `str`). */
  predicate StrLe(a: string, b: string) {
    if a == [] then true
    else if b == [] then false
    else if a[0] != b[0] then a[0] < b[0]
    else StrLe(a[1..], b[1..])
  }

  lemma {:induction false} StrLeTotal(a: string, b: string)
    ensures StrLe(a, b) || StrLe(b, a)
  {
    if a != [] && b != [] && a[0] == b[0] {
      StrLeTotal(a[1..], b[1..]);
    }
  }

  lemma {:induction false} StrLeAntisymmetric(a: string, b: string)
    requires StrLe(a, b) && StrLe(b, a)
    ensures a == b
  {
    if a != [] && b != [] {
      StrLeAntisymmetric(a[1..], b[1..]);
      assert a == [a[0]] + a[1..];
      assert b == [b[0]] + b[1..];
    }
  }

  lemma {:induction false} StrLeTransitive(a: string, b: string, c: string)
    requires StrLe(a, b) && StrLe(b, c)
    ensures StrLe(a, c)
  {
    if a != [] && b != [] && c != [] && a[0] == b[0] && b[0] == c[0] {
      StrLeTransitive(a[1..], b[1..], c[1..]);
    }
  }

  predicate Sorted(s: seq<string>) {
    forall i, j :: 0 <= i < j < |s| ==> StrLe(s[i], s[j])
  }

  /** Sorted without repetitions. */
  predicate StrictlySorted(s: seq<string>) {
    forall i, j :: 0 <= i < j < |s| ==> StrLe(s[i], s[j]) && s[i] != s[j]
  }

  predicate NoDuplicates<T(==)>(s: seq<T>) {
    forall i, j :: 0 <= i < j < |s| ==> s[i] != s[j]
  }

  function Elems<T>(s: seq<T>): set<T> {
    set x | x in s
  }

  /** Insertion of `x` into a sorted list, in front of the first element not below it. */
  function Insert(x: string, s: seq<string>): (r: seq<string>)
    requires Sorted(s)
    ensures multiset(r) == multiset(s) + multiset{x}
    ensures Sorted(r)
  {
    if s == [] then [x]
    else if StrLe(x, s[0]) then
      InsertFront(x, s);
      [x] + s
    else
      StrLeTotal(x, s[0]);
      var t := Insert(x, s[1..]);
      InsertBehind(x, s, t);
      [s[0]] + t
  }

  /** An element not above the head of a sorted list is not above any of it. */
  lemma InsertFront(x: string, s: seq<string>)
    requires Sorted(s) && s != [] && StrLe(x, s[0])
    ensures Sorted([x] + s)
  {
    forall j | 0 < j < |s| ensures StrLe(x, s[j]) {
      StrLeTransitive(x, s[0], s[j]);
    }
  }

  /** The head of a sorted list stays in front of an insertion into its tail. */
  lemma InsertBehind(x: string, s: seq<string>, t: seq<string>)
    requires Sorted(s) && s != [] && StrLe(s[0], x) && Sorted(t)
    requires multiset(t) == multiset(s[1..]) + multiset{x}
    ensures Sorted([s[0]] + t)
    ensures multiset([s[0]] + t) == multiset(s) + multiset{x}
  {
    assert s == [s[0]] + s[1..];
    forall j | 0 <= j < |t| ensures StrLe(s[0], t[j]) {
      assert t[j] in multiset(t);
      if t[j] != x {
        assert t[j] in multiset(s[1..]);
        var k :| 0 <= k < |s[1..]| && s[1..][k] == t[j];
        assert s[k + 1] == t[j];
      }
    }
  }

  /** Python's `sorted(s)`: a sorted permutation of `s`. */
  function Sort(s: seq<string>): (r: seq<string>)
    ensures multiset(r) == multiset(s)
    ensures Sorted(r)
  {
    if s == [] then []
    else
      assert s == [s[0]] + s[1..];
      Insert(s[0], Sort(s[1..]))
  }

  /** A sorted permutation of a list without repetitions is strictly sorted. */
  lemma SortDistinct(s: seq<string>)
    requires NoDuplicates(s)
    ensures StrictlySorted(Sort(s)) && Elems(Sort(s)) == Elems(s)
  {
    var r := Sort(s);
    assert forall x :: x in r <==> x in multiset(s);
    forall x | x in multiset(r)
      ensures multiset(r)[x] == 1
    {
      MultisetCountNoDup(s, x);
    }
    forall i, j | 0 <= i < j < |r| ensures r[i] != r[j] {
      if r[i] == r[j] {
        CountTwo(r, i, j);
      }
    }
  }

  lemma {:induction false} MultisetCountNoDup(s: seq<string>, x: string)
    requires NoDuplicates(s)
    ensures multiset(s)[x] <= 1
  {
    if s != [] {
      assert s == [s[0]] + s[1..];
      MultisetCountNoDup(s[1..], x);
      if s[0] == x {
        assert x !in s[1..];
      }
    }
  }

  lemma {:induction false} CountTwo(r: seq<string>, i: nat, j: nat)
    requires i < j < |r| && r[i] == r[j]
    ensures multiset(r)[r[i]] >= 2
  {
    var x := r[i];
    assert r == r[..i] + [x] + r[i + 1..j] + [x] + r[j + 1..];
  }

  /**
    Python's `list(dict.fromkeys(s))`: each element kept at its first occurrence.
    Written as the left-to-right insertion it performs.
  */
  function Dedupe<T(==)>(s: seq<T>): (r: seq<T>)
    ensures NoDuplicates(r)
    ensures Elems(r) == Elems(s)
  {
    if s == [] then []
    else
      var init := s[..|s| - 1];
      var x := s[|s| - 1];
      var d := Dedupe(init);
      assert Elems(s) == Elems(init) + {x} by { assert s == init + [x]; }
      if x in init then
        assert x in Elems(d);
        d
      else
        assert x !in Elems(d);
        d + [x]
  }
}
