/**
 * The few Python built-ins the editor leans on: `str.isspace`, `str.strip`,
 * `str.split()` (no separator), `str.join`, `str(int)` and `list.remove`.
 * Strings are sequences of code points, as Python 3 `str` is.
 */
module PyBuiltins {

  /** Python 3 `str.isspace` for one character (the set `\s` also uses in `re`). */
  predicate IsSpace(c: char) {
    || c == ' ' || c == '\t' || c == '\n' || c == '\r' || c == '\U{0B}' || c == '\U{0C}'
    || ('\U{1C}' <= c <= '\U{1F}') || c == '\U{85}' || c == '\U{A0}' || c == '\U{1680}'
    || ('\U{2000}' <= c <= '\U{200A}') || c == '\U{2028}' || c == '\U{2029}' || c == '\U{202F}'
    || c == '\U{205F}' || c == '\U{3000}'
  }

  predicate AllSpace(s: string) {
    forall i :: 0 <= i < |s| ==> IsSpace(s[i])
  }

  predicate NoSpace(s: string) {
    forall i :: 0 <= i < |s| ==> !IsSpace(s[i])
  }

  /** End of the run of whitespace starting at `j` (`\s*`, greedy). */
  function SpaceRun(t: string, j: nat): (k: nat)
    requires j <= |t|
    ensures j <= k <= |t| && AllSpace(t[j..k]) && (k == |t| || !IsSpace(t[k]))
    decreases |t| - j
  {
    if j < |t| && IsSpace(t[j]) then
      var k := SpaceRun(t, j + 1);
      assert t[j..k] == [t[j]] + t[j + 1..k];
      k
    else j
  }

  /** Start of the run of whitespace that ends at `j`. */
  function SpaceRunBack(t: string, j: nat): (k: nat)
    requires j <= |t|
    ensures k <= j && AllSpace(t[k..j]) && (k == 0 || !IsSpace(t[k - 1]))
  {
    if j > 0 && IsSpace(t[j - 1]) then
      var k := SpaceRunBack(t, j - 1);
      assert t[k..j] == t[k..j - 1] + [t[j - 1]];
      k
    else j
  }

  /** `s.lstrip()`: the suffix of `s` left after dropping leading whitespace. */
  function TrimLeft(s: string): (r: string)
    ensures |r| <= |s| && r == s[|s| - |r|..]
    ensures AllSpace(s[..|s| - |r|])
    ensures r == [] || !IsSpace(r[0])
  {
    var k := SpaceRun(s, 0);
    assert s[0..k] == s[..k];
    s[k..]
  }

  /** `s.rstrip()`: the prefix of `s` left after dropping trailing whitespace. */
  function TrimRight(s: string): (r: string)
    ensures |r| <= |s| && r == s[..|r|]
    ensures AllSpace(s[|r|..])
    ensures r == [] || !IsSpace(r[|r| - 1])
  {
    var k := SpaceRunBack(s, |s|);
    assert s[k..|s|] == s[k..];
    s[..k]
  }

  /** `s.strip()`: `s` with leading and trailing whitespace removed. */
  function Strip(s: string): (r: string)
    ensures |r| <= |s|
    ensures r == [] || (!IsSpace(r[0]) && !IsSpace(r[|r| - 1]))
  {
    TrimRight(TrimLeft(s))
  }

  /** What `strip` drops is whitespace on either side of what it keeps. */
  lemma StripDropsOnlySpace(s: string)
    ensures exists a :: StrippedAt(s, Strip(s), a)
  {
    var l := TrimLeft(s);
    var r := TrimRight(l);
    var a := |s| - |l|;
    assert l == s[a..];
    assert r == s[a..a + |r|];
    assert s[a + |r|..] == l[|r|..];
    assert r == Strip(s);
    assert StrippedAt(s, r, a);
  }

  /** `r` is `s` less the whitespace in front of position `a` and after `r`. */
  predicate StrippedAt(s: string, r: string, a: int) {
    0 <= a && a + |r| <= |s| && r == s[a..a + |r|] && AllSpace(s[..a]) && AllSpace(s[a + |r|..])
  }

  /** Stripping is all that is needed: a stripped string strips to itself. */
  lemma StripIdempotent(s: string)
    ensures Strip(Strip(s)) == Strip(s)
  {
    var r := Strip(s);
    if r != [] {
      assert TrimLeft(r) == r;
      assert TrimRight(r) == r;
    }
  }

  /** `s.strip()` is empty exactly when `s` is all whitespace. */
  lemma StripEmptyIffAllSpace(s: string)
    ensures Strip(s) == [] <==> AllSpace(s)
  {
    var l := TrimLeft(s);
    assert Strip(s) == TrimRight(l);
    if l == [] {
      assert s[..|s|] == s;
    } else {
      assert s[|s| - |l|] == l[0];
    }
  }

  /** Length of the leading run of non-whitespace characters. */
  function WordLength(s: string): (n: nat)
    ensures n <= |s| && NoSpace(s[..n])
    ensures n == |s| || IsSpace(s[n])
  {
    if |s| == 0 || IsSpace(s[0]) then 0
    else
      var m := WordLength(s[1..]);
      assert s[..m + 1] == [s[0]] + s[1..][..m];
      m + 1
  }

  /** `s.split()`: the maximal runs of non-whitespace characters, left to right. */
  function Split(s: string): (r: seq<string>)
    ensures forall k :: 0 <= k < |r| ==> |r[k]| > 0 && NoSpace(r[k])
    decreases |s|
  {
    if |s| == 0 then []
    else if IsSpace(s[0]) then Split(s[1..])
    else
      var n := WordLength(s);
      var rest := Split(s[n..]);
      assert forall k :: 0 <= k < |rest| ==> |rest[k]| > 0 && NoSpace(rest[k]);
      [s[..n]] + rest
  }

  /** `sep.join(parts)`. */
  function Join(parts: seq<string>, sep: string): string
  {
    if |parts| == 0 then ""
    else if |parts| == 1 then parts[0]
    else parts[0] + sep + Join(parts[1..], sep)
  }

  /**
   * Splitting what was joined by single spaces gives the parts back,
   * when every part is a non-empty run of non-whitespace characters.
   */
  lemma {:induction false} SplitJoin(parts: seq<string>)
    requires forall k :: 0 <= k < |parts| ==> |parts[k]| > 0 && NoSpace(parts[k])
    ensures Split(Join(parts, " ")) == parts
  {
    if |parts| == 1 {
      var w := parts[0];
      WordLengthOfWord(w, "");
      assert w + "" == w;
      assert w[|w|..] == [];
      assert w[..|w|] == w;
    } else if |parts| > 1 {
      var w := parts[0];
      var rest := Join(parts[1..], " ");
      var s := w + (" " + rest);
      assert Join(parts, " ") == s;
      WordLengthOfWord(w, " " + rest);
      assert s[..|w|] == w;
      assert s[|w|..] == " " + rest;
      assert (" " + rest)[1..] == rest;
      SplitJoin(parts[1..]);
    }
  }

  /** Words joined by single spaces have no surrounding whitespace for `strip` to drop. */
  lemma JoinWordsStripped(parts: seq<string>)
    requires forall k :: 0 <= k < |parts| ==> |parts[k]| > 0 && NoSpace(parts[k])
    ensures Strip(Join(parts, " ")) == Join(parts, " ")
  {
    var s := Join(parts, " ");
    if |parts| > 0 {
      JoinEnds(parts);
      assert TrimLeft(s) == s;
      assert TrimRight(s) == s;
    }
  }

  lemma {:induction false} JoinEnds(parts: seq<string>)
    requires |parts| > 0 && forall k :: 0 <= k < |parts| ==> |parts[k]| > 0
    ensures var s, last := Join(parts, " "), parts[|parts| - 1];
      |s| > 0 && s[0] == parts[0][0] && s[|s| - 1] == last[|last| - 1]
  {
    if |parts| > 1 {
      var rest := Join(parts[1..], " ");
      JoinEnds(parts[1..]);
      assert Join(parts, " ") == parts[0] + " " + rest;
      assert parts[1..][|parts[1..]| - 1] == parts[|parts| - 1];
    }
  }

  lemma {:induction false} WordLengthOfWord(w: string, tail: string)
    requires NoSpace(w)
    requires tail == [] || IsSpace(tail[0])
    ensures WordLength(w + tail) == |w|
    decreases |w|
  {
    if |w| > 0 {
      assert (w + tail)[1..] == w[1..] + tail;
      WordLengthOfWord(w[1..], tail);
    } else {
      assert w + tail == tail;
    }
  }

  /** The decimal digit `d` as a character. */
  function DigitChar(d: nat): char
    requires d < 10
  {
    ('0' as int + d) as char
  }

  /** `str(n)` for a non-negative integer: its decimal digits. */
  function NatToString(n: nat): (r: string)
    ensures |r| > 0 && forall k :: 0 <= k < |r| ==> '0' <= r[k] <= '9'
  {
    if n < 10 then [DigitChar(n)] else NatToString(n / 10) + [DigitChar(n % 10)]
  }

  /** `str(i)` for a Python int. */
  function IntToString(i: int): (r: string)
    ensures |r| > 0 && (r[0] == '-' <==> i < 0)
    ensures r[0] != '-' ==> '0' <= r[0] <= '9'
  {
    if i < 0 then "-" + NatToString(-i) else NatToString(i)
  }

  /** `sub in s` on strings: `sub` occurs in `s` at some position. */
  predicate Contains(s: string, sub: string)
    ensures Contains(s, sub) <==> exists i :: 0 <= i <= |s| && sub <= s[i..]
    decreases |s|
  {
    if sub <= s then
      assert sub <= s[0..];
      true
    else if |s| == 0 then false
    else
      var tail := s[1..];
      assert forall i :: 1 <= i <= |s| ==> s[i..] == tail[i - 1..];
      Contains(tail, sub)
  }

  /** Index of the first occurrence of `x` in `s` (Python `list.index`). */
  function IndexOf<T(==)>(s: seq<T>, x: T): (i: nat)
    requires x in s
    ensures i < |s| && s[i] == x && x !in s[..i]
  {
    if s[0] == x then 0 else 1 + IndexOf(s[1..], x)
  }

  /** `s.remove(x)` on a list that contains `x`: drops the first occurrence only. */
  function RemoveFirst<T(==)>(s: seq<T>, x: T): (r: seq<T>)
    requires x in s
    ensures |r| == |s| - 1
    ensures r == s[..IndexOf(s, x)] + s[IndexOf(s, x) + 1..]
    ensures multiset(r) == multiset(s) - multiset{x}
  {
    var i := IndexOf(s, x);
    assert s == s[..i] + [x] + s[i + 1..];
    s[..i] + s[i + 1..]
  }
}
