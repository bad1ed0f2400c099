/**
 * The five regular expressions of the JSON highlighter, each read as the
 * match Python's backtracking engine finds at a given position, and
 * `re.finditer` as the left-to-right scan for non-overlapping matches.
 * Word characters and digits are the ASCII ones; whitespace is the
 * `str.isspace` set, which `\s` uses for text patterns.
 */
module JsonPatterns {
  import opened Wrappers
  import opened PyBuiltins

  /** The formats, one per pattern, in the order their sweeps run. */
  datatype Category = Literal | Key | StringValue | Number | GeneralString

  predicate IsDigit(c: char) {
    '0' <= c <= '9'
  }

  /** `\w` on ASCII text: letters, digits and underscore. */
  predicate IsWordChar(c: char) {
    ('a' <= c <= 'z') || ('A' <= c <= 'Z') || IsDigit(c) || c == '_'
  }

  /** End of the run of digits starting at `j` (`\d*`, greedy). */
  function DigitRun(t: string, j: nat): (k: nat)
    requires j <= |t|
    ensures j <= k <= |t| && (forall m :: j <= m < k ==> IsDigit(t[m])) && (k == |t| || !IsDigit(t[k]))
    decreases |t| - j
  {
    if j < |t| && IsDigit(t[j]) then DigitRun(t, j + 1) else j
  }

  /** Position of the first `"` at or after `j`, or `|t|` when there is none (`[^"]*` stops there). */
  function NextQuote(t: string, j: nat): (q: nat)
    requires j <= |t|
    ensures j <= q <= |t| && (forall m :: j <= m < q ==> t[m] != '"') && (q == |t| || t[q] == '"')
    decreases |t| - j
  {
    if j < |t| && t[j] != '"' then NextQuote(t, j + 1) else j
  }

  predicate WordAt(t: string, i: nat, w: string) {
    i + |w| <= |t| && t[i..i + |w|] == w
  }

  /** `\b(true|false|null)\b` at `i`. */
  function LiteralAt(t: string, i: nat): (r: Option<nat>)
    requires i <= |t|
    ensures r.Some? ==> i < r.value <= |t| && t[i..r.value] in {"true", "false", "null"}
    ensures r.Some? ==> (i == 0 || !IsWordChar(t[i - 1])) && (r.value == |t| || !IsWordChar(t[r.value]))
    ensures WordAt(t, i, "null") && (i == 0 || !IsWordChar(t[i - 1])) && (i + 4 == |t| || !IsWordChar(t[i + 4])) ==> r == Some(i + 4)
  {
    if i > 0 && IsWordChar(t[i - 1]) then None
    else
      var n :=
        if WordAt(t, i, "true") then 4
        else if WordAt(t, i, "false") then 5
        else if WordAt(t, i, "null") then 4
        else 0;
      if n > 0 && (i + n == |t| || !IsWordChar(t[i + n])) then Some(i + n) else None
  }

  /** `"[^"]+"\s*:` at `i`: a non-empty quoted name, optional whitespace, a colon. */
  function KeyAt(t: string, i: nat): (r: Option<nat>)
    requires i <= |t|
    ensures r.Some? ==> i + 4 <= r.value <= |t| && t[i] == '"' && t[r.value - 1] == ':'
    ensures !(i < |t| && t[i] == '"') ==> r.None?
  {
    if i < |t| && t[i] == '"' then
      var q := NextQuote(t, i + 1);
      if q < |t| && q >= i + 2 then
        var s := SpaceRun(t, q + 1);
        if s < |t| && t[s] == ':' then Some(s + 1) else None
      else None
    else None
  }

  /** `:\s*"[^"]*"` at `i`: a colon, optional whitespace, a quoted (possibly empty) text. */
  function StringValueAt(t: string, i: nat): (r: Option<nat>)
    requires i <= |t|
    ensures r.Some? ==> i + 3 <= r.value <= |t| && t[i] == ':' && t[r.value - 1] == '"'
    ensures !(i < |t| && t[i] == ':') ==> r.None?
  {
    if i < |t| && t[i] == ':' then
      var j := SpaceRun(t, i + 1);
      if j < |t| && t[j] == '"' then
        var q := NextQuote(t, j + 1);
        if q < |t| then Some(q + 1) else None
      else None
    else None
  }

  /** The exponent part `([eE][+-]?\d+)?` after position `f`: taken only when it is complete. */
  function ExponentEnd(t: string, f: nat): (e: nat)
    requires f <= |t|
    ensures f <= e <= |t|
  {
    if f < |t| && (t[f] == 'e' || t[f] == 'E') then
      var m := if f + 1 < |t| && (t[f + 1] == '+' || t[f + 1] == '-') then f + 2 else f + 1;
      var d := DigitRun(t, m);
      if d > m then d else f
    else f
  }

  /** `-?\d+\.?\d*([eE][+-]?\d+)?` at `j`, each part as greedy as the rest allows. */
  function NumberEnd(t: string, j: nat): (r: Option<nat>)
    requires j <= |t|
    ensures r.Some? ==> j < r.value <= |t|
  {
    var k := if j < |t| && t[j] == '-' then j + 1 else j;
    var d := DigitRun(t, k);
    if d == k then None
    else
      var f := if d < |t| && t[d] == '.' then DigitRun(t, d + 1) else d;
      Some(ExponentEnd(t, f))
  }

  /** `:\s*-?\d+\.?\d*([eE][+-]?\d+)?` at `i`. */
  function NumberAt(t: string, i: nat): (r: Option<nat>)
    requires i <= |t|
    ensures r.Some? ==> i + 2 <= r.value <= |t| && t[i] == ':'
    ensures !(i < |t| && t[i] == ':') ==> r.None?
  {
    if i < |t| && t[i] == ':' then NumberEnd(t, SpaceRun(t, i + 1)) else None
  }

  /** `"[^"]*"` at `i`. */
  function GeneralAt(t: string, i: nat): (r: Option<nat>)
    requires i <= |t|
    ensures r.Some? ==> i + 2 <= r.value <= |t| && t[i] == '"' && t[r.value - 1] == '"'
    ensures r.Some? ==> forall m :: i < m < r.value - 1 ==> t[m] != '"'
    ensures r.None? <==> !(i < |t| && t[i] == '"') || NextQuote(t, i + 1) == |t|
  {
    if i < |t| && t[i] == '"' then
      var q := NextQuote(t, i + 1);
      if q < |t| then Some(q + 1) else None
    else None
  }

  /** Where the pattern of category `c` matches at `i`, and where that match ends. */
  function MatchAt(c: Category, t: string, i: nat): (r: Option<nat>)
    requires i <= |t|
    ensures r.Some? ==> i < r.value <= |t|
  {
    match c
    case Literal => LiteralAt(t, i)
    case Key => KeyAt(t, i)
    case StringValue => StringValueAt(t, i)
    case Number => NumberAt(t, i)
    case GeneralString => GeneralAt(t, i)
  }

  /** A match span `[start, end)`. */
  datatype Span = Span(start: nat, end: nat)

  /** A compiled pattern applied to one text: where a match starting at `i` ends, if there is one. */
  type Matcher = nat -> Option<nat>

  /** Every match is non-empty and ends inside the text of length `n`. */
  ghost predicate Proper(m: Matcher, n: nat) {
    forall i: nat :: i <= n && m(i).Some? ==> i < m(i).value <= n
  }

  /** The pattern of category `c` applied to `t`. */
  function MatcherOf(c: Category, t: string): (m: Matcher)
    ensures Proper(m, |t|)
  {
    (i: nat) => if i <= |t| then MatchAt(c, t, i) else None
  }

  /** `re.finditer` from `pos`: the leftmost match, then the search goes on from where it ended. */
  function Scan(m: Matcher, n: nat, pos: nat): (spans: seq<Span>)
    requires pos <= n && Proper(m, n)
    ensures forall k :: 0 <= k < |spans| ==> pos <= spans[k].start < spans[k].end <= n
    ensures forall k :: 0 < k < |spans| ==> spans[k - 1].end <= spans[k].start
    decreases n - pos
  {
    if pos == n then []
    else match m(pos)
      case Some(e) =>
        var rest := Scan(m, n, e);
        assert forall k :: 0 <= k < |rest| ==> e <= rest[k].start;
        [Span(pos, e)] + rest
      case None => Scan(m, n, pos + 1)
  }

  /** The spans `finditer` gives for the pattern of category `c` over `t`, from `pos`. */
  function FindAll(c: Category, t: string, pos: nat): (spans: seq<Span>)
    requires pos <= |t|
    ensures forall k :: 0 <= k < |spans| ==> pos <= spans[k].start < spans[k].end <= |t|
    ensures forall k :: 0 < k < |spans| ==> spans[k - 1].end <= spans[k].start
  {
    Scan(MatcherOf(c, t), |t|, pos)
  }

  /** Every span the scan finds is a match starting where the span starts. */
  lemma {:induction false} ScanMatches(m: Matcher, n: nat, pos: nat)
    requires pos <= n && Proper(m, n)
    ensures forall k :: 0 <= k < |Scan(m, n, pos)| ==> m(Scan(m, n, pos)[k].start) == Some(Scan(m, n, pos)[k].end)
    decreases n - pos
  {
    if pos < n {
      match m(pos)
      case Some(e) =>
        ScanMatches(m, n, e);
        var rest := Scan(m, n, e);
        assert forall k :: 0 < k < |Scan(m, n, pos)| ==> Scan(m, n, pos)[k] == rest[k - 1];
      case None =>
        ScanMatches(m, n, pos + 1);
    }
  }

  /** Every span found is a match of the pattern, starting where the span starts. */
  lemma FindAllMatches(c: Category, t: string, pos: nat)
    requires pos <= |t|
    ensures forall k :: 0 <= k < |FindAll(c, t, pos)| ==>
      MatchAt(c, t, FindAll(c, t, pos)[k].start) == Some(FindAll(c, t, pos)[k].end)
  {
    ScanMatches(MatcherOf(c, t), |t|, pos);
  }

  /** Position `i` lies inside one of the spans. */
  ghost predicate Covers(spans: seq<Span>, i: int) {
    exists k :: 0 <= k < |spans| && spans[k].start <= i < spans[k].end
  }

  /** The scan misses no match: it starts a span at `i` or has already covered `i`. */
  lemma {:induction false} ScanComplete(m: Matcher, n: nat, pos: nat, i: nat)
    requires pos <= i < n && Proper(m, n) && m(i).Some?
    ensures Covers(Scan(m, n, pos), i)
    decreases n - pos
  {
    var spans := Scan(m, n, pos);
    match m(pos)
    case Some(e) =>
      if i < e {
        assert spans[0].start <= i < spans[0].end;
      } else {
        ScanComplete(m, n, e, i);
        var rest := Scan(m, n, e);
        var k :| 0 <= k < |rest| && rest[k].start <= i < rest[k].end;
        assert spans[k + 1] == rest[k];
      }
    case None =>
      if i == pos {
        assert false;
      }
      ScanComplete(m, n, pos + 1, i);
  }

  /**
   * No match is missed: every position where the pattern matches is the
   * start of a found span or lies inside an earlier one.
   */
  lemma FindAllComplete(c: Category, t: string, pos: nat, i: nat)
    requires pos <= i < |t| && MatchAt(c, t, i).Some?
    ensures Covers(FindAll(c, t, pos), i)
  {
    ScanComplete(MatcherOf(c, t), |t|, pos, i);
  }

  /** Positions where the matcher finds nothing are skipped over. */
  lemma {:induction false} ScanSkips(m: Matcher, n: nat, p: nat, q: nat)
    requires p <= q <= n && Proper(m, n)
    requires forall i: nat :: p <= i < q ==> m(i).None?
    ensures Scan(m, n, p) == Scan(m, n, q)
    decreases q - p
  {
    if p < q {
      ScanSkips(m, n, p + 1, q);
    }
  }

  /** Positions where the pattern does not match are skipped over. */
  lemma FindAllSkips(c: Category, t: string, p: nat, q: nat)
    requires p <= q <= |t|
    requires forall i :: p <= i < q ==> MatchAt(c, t, i).None?
    ensures FindAll(c, t, p) == FindAll(c, t, q)
  {
    ScanSkips(MatcherOf(c, t), |t|, p, q);
  }

  /** A span starts only where the pattern matches. */
  lemma FindAllSound(c: Category, t: string, i: nat)
    requires i < |t| && MatchAt(c, t, i).None?
    ensures forall k :: 0 <= k < |FindAll(c, t, 0)| ==> FindAll(c, t, 0)[k].start != i
  {
    FindAllMatches(c, t, 0);
  }

  // ------------------------------------------------------------ literals

  /** The literal sweep matches exactly the whole words `true`, `false` and `null`. */
  lemma LiteralIff(t: string, i: nat, e: nat)
    requires i <= |t|
    ensures LiteralAt(t, i) == Some(e) <==>
      && (i == 0 || !IsWordChar(t[i - 1]))
      && i < e <= |t| && t[i..e] in {"true", "false", "null"}
      && (e == |t| || !IsWordChar(t[e]))
  {
    if i < e <= |t| && t[i..e] in {"true", "false", "null"} {
      var w := t[i..e];
      assert WordAt(t, i, w);
      if w == "false" {
        assert !WordAt(t, i, "true") by { assert t[i] == 'f'; }
      } else if w == "null" {
        assert !WordAt(t, i, "true") by { assert t[i] == 'n'; }
        assert !WordAt(t, i, "false") by { assert t[i] == 'n'; }
      }
    }
  }

  // ------------------------------------------------- quotes and whitespace

  /** The first quote at or after `j` is the one at `q` when none lies before it. */
  lemma NextQuoteIs(t: string, j: nat, q: nat)
    requires j <= q < |t| && t[q] == '"'
    requires forall m :: j <= m < q ==> t[m] != '"'
    ensures NextQuote(t, j) == q
  {
  }

  /** The run of whitespace from `a` ends at `b` when `t[a..b]` is whitespace and `t[b]` is not. */
  lemma {:induction false} SpaceRunIs(t: string, a: nat, b: nat)
    requires a <= b < |t| && AllSpace(t[a..b]) && !IsSpace(t[b])
    ensures SpaceRun(t, a) == b
    decreases b - a
  {
    if a < b {
      assert IsSpace(t[a..b][0]);
      assert t[a + 1..b] == t[a..b][1..];
      SpaceRunIs(t, a + 1, b);
    }
  }

  // ---------------------------------------------------------------- keys

  /**
   * `"[^"]+"\s*:` matches `t[i..e]`: a quote, a non-empty run without
   * quotes closed by the quote at `q`, only whitespace, then the colon
   * that ends the match.
   */
  ghost predicate KeyShaped(t: string, i: nat, e: nat) {
    exists q :: && i + 2 <= q && q + 2 <= e <= |t|
                && t[i] == '"' && t[q] == '"' && (forall m :: i < m < q ==> t[m] != '"')
                && AllSpace(t[q + 1..e - 1]) && t[e - 1] == ':'
  }

  /**
   * A key is a quote, at least one non-quote character, a quote, optional
   * whitespace and a colon; so the empty name `"":` is never a key.
   */
  lemma KeyShape(t: string, i: nat)
    requires i <= |t| && KeyAt(t, i).Some?
    ensures var e := KeyAt(t, i).value;
      && t[i] == '"' && t[e - 1] == ':'
      && i + 2 < e && (i + 1 < |t| ==> t[i + 1] != '"')
      && KeyShaped(t, i, e)
  {
    var q := NextQuote(t, i + 1);
    var e := KeyAt(t, i).value;
    assert t[q + 1..e - 1] == t[q + 1..SpaceRun(t, q + 1)];
  }

  /**
   * The key sweep matches exactly the spans of that shape, and at most one
   * per start: the backtracking engine can give no shorter or longer match.
   */
  lemma KeyIff(t: string, i: nat, e: nat)
    requires i <= |t|
    ensures KeyAt(t, i) == Some(e) <==> KeyShaped(t, i, e)
  {
    if KeyAt(t, i) == Some(e) {
      KeyShape(t, i);
    }
    if KeyShaped(t, i, e) {
      KeyOfShape(t, i, e);
    }
  }

  /** A span of the key shape is the match the engine finds. */
  lemma KeyOfShape(t: string, i: nat, e: nat)
    requires i <= |t| && KeyShaped(t, i, e)
    ensures KeyAt(t, i) == Some(e)
  {
    var q :| && i + 2 <= q && q + 2 <= e <= |t|
             && t[i] == '"' && t[q] == '"' && (forall m :: i < m < q ==> t[m] != '"')
             && AllSpace(t[q + 1..e - 1]) && t[e - 1] == ':';
    KeyAtQuotes(t, i, q, e);
  }

  /** The key pattern at `i` with its closing quote at `q` and its colon at `e - 1`. */
  lemma KeyAtQuotes(t: string, i: nat, q: nat, e: nat)
    requires i + 2 <= q && q + 2 <= e <= |t| && t[i] == '"' && t[q] == '"'
    requires forall m :: i < m < q ==> t[m] != '"'
    requires AllSpace(t[q + 1..e - 1]) && t[e - 1] == ':'
    ensures KeyAt(t, i) == Some(e)
  {
    NextQuoteIs(t, i + 1, q);
    assert !IsSpace(t[e - 1]);
    SpaceRunIs(t, q + 1, e - 1);
  }

  /** A key match ends at its colon, a string-value match starts at one. */
  lemma KeyThenValue(t: string, i: nat)
    requires i <= |t| && KeyAt(t, i).Some?
    ensures StringValueAt(t, KeyAt(t, i).value - 1).Some? <==> GeneralAt(t, SpaceRun(t, KeyAt(t, i).value)).Some?
  {
  }

  // -------------------------------------------------------- string values

  /**
   * `:\s*"[^"]*"` matches `t[i..e]`: the colon, only whitespace up to the
   * opening quote at `j`, a run without quotes, the closing quote that ends
   * the match.
   */
  ghost predicate StringValueShaped(t: string, i: nat, e: nat) {
    exists j :: && i < j && j + 2 <= e <= |t|
                && t[i] == ':' && AllSpace(t[i + 1..j]) && t[j] == '"'
                && (forall m :: j < m < e - 1 ==> t[m] != '"') && t[e - 1] == '"'
  }

  /** The string-value sweep matches exactly the spans of that shape, at most one per start. */
  lemma StringValueIff(t: string, i: nat, e: nat)
    requires i <= |t|
    ensures StringValueAt(t, i) == Some(e) <==> StringValueShaped(t, i, e)
  {
    if StringValueAt(t, i) == Some(e) {
      var j := SpaceRun(t, i + 1);
      assert j + 2 <= e;
    }
    if StringValueShaped(t, i, e) {
      var j :| && i < j && j + 2 <= e <= |t|
               && t[i] == ':' && AllSpace(t[i + 1..j]) && t[j] == '"'
               && (forall m :: j < m < e - 1 ==> t[m] != '"') && t[e - 1] == '"';
      StringValueAtQuotes(t, i, j, e);
    }
  }

  /** The string-value pattern at `i` with its opening quote at `j` and its closing quote at `e - 1`. */
  lemma StringValueAtQuotes(t: string, i: nat, j: nat, e: nat)
    requires i < j && j + 2 <= e <= |t| && t[i] == ':' && AllSpace(t[i + 1..j]) && t[j] == '"'
    requires (forall m :: j < m < e - 1 ==> t[m] != '"') && t[e - 1] == '"'
    ensures StringValueAt(t, i) == Some(e)
  {
    assert !IsSpace(t[j]);
    SpaceRunIs(t, i + 1, j);
    NextQuoteIs(t, j + 1, e - 1);
  }

  // ------------------------------------------------------ general strings

  /** `"[^"]*"` matches `t[i..e]`: a quote, a run without quotes, the closing quote. */
  predicate GeneralShaped(t: string, i: nat, e: nat) {
    && i + 2 <= e <= |t| && t[i] == '"' && t[e - 1] == '"'
    && forall m :: i < m < e - 1 ==> t[m] != '"'
  }

  /** The general-string sweep matches exactly the spans of that shape: the next quote closes it. */
  lemma GeneralIff(t: string, i: nat, e: nat)
    requires i <= |t|
    ensures GeneralAt(t, i) == Some(e) <==> GeneralShaped(t, i, e)
  {
    if GeneralShaped(t, i, e) {
      NextQuoteIs(t, i + 1, e - 1);
    }
  }

  // -------------------------------------------------------------- numbers

  /** A deterministic automaton for `-?\d+\.?\d*([eE][+-]?\d+)?`, independent of the matcher above. */
  datatype NumState = Start | Minus | Int | Dot | Frac | Exp | ExpSign | ExpInt | Dead

  /** One transition of the reference automaton for the number pattern. */
  function Step(q: NumState, c: char): NumState {
    match q
    case Start => if c == '-' then Minus else if IsDigit(c) then Int else Dead
    case Minus => if IsDigit(c) then Int else Dead
    case Int => if IsDigit(c) then Int else if c == '.' then Dot else if c == 'e' || c == 'E' then Exp else Dead
    case Dot => if IsDigit(c) then Frac else if c == 'e' || c == 'E' then Exp else Dead
    case Frac => if IsDigit(c) then Frac else if c == 'e' || c == 'E' then Exp else Dead
    case Exp => if c == '+' || c == '-' then ExpSign else if IsDigit(c) then ExpInt else Dead
    case ExpSign => if IsDigit(c) then ExpInt else Dead
    case ExpInt => if IsDigit(c) then ExpInt else Dead
    case Dead => Dead
  }

  predicate Accepting(q: NumState) {
    q == Int || q == Dot || q == Frac || q == ExpInt
  }

  /** The state after reading `w` from `q`. */
  function Run(q: NumState, w: string): NumState
    decreases |w|
  {
    if |w| == 0 then q else Run(Step(q, w[0]), w[1..])
  }

  /** Maximal munch: read on from `k` in state `q` until the automaton dies, remembering the last accepting end. */
  function Munch(t: string, k: nat, q: NumState, best: Option<nat>): Option<nat>
    requires k <= |t|
    decreases |t| - k
  {
    if k == |t| then best
    else
      var q' := Step(q, t[k]);
      if q' == Dead then best
      else Munch(t, k + 1, q', if Accepting(q') then Some(k + 1) else best)
  }

  lemma {:induction false} RunDead(w: string)
    ensures Run(Dead, w) == Dead
  {
    if |w| > 0 {
      RunDead(w[1..]);
    }
  }

  /**
   * What maximal munch returns: `best` when no longer accepted prefix
   * exists, otherwise the end of the longest one.
   */
  lemma {:induction false} MunchLongest(t: string, k: nat, q: NumState, best: Option<nat>)
    requires k <= |t|
    ensures var r := Munch(t, k, q, best);
      || (r == best && forall e :: k < e <= |t| ==> !Accepting(Run(q, t[k..e])))
      || (r.Some? && k < r.value <= |t| && Accepting(Run(q, t[k..r.value]))
          && forall e :: r.value < e <= |t| ==> !Accepting(Run(q, t[k..e])))
    decreases |t| - k
  {
    if k < |t| {
      var q' := Step(q, t[k]);
      forall e | k < e <= |t| ensures Run(q, t[k..e]) == Run(q', t[k + 1..e]) {
        assert t[k..e][1..] == t[k + 1..e];
      }
      if q' == Dead {
        forall e | k < e <= |t| ensures !Accepting(Run(q, t[k..e])) {
          RunDead(t[k + 1..e]);
        }
      } else {
        var b := if Accepting(q') then Some(k + 1) else best;
        MunchLongest(t, k + 1, q', b);
        assert t[k + 1..k + 1] == [];
      }
    }
  }

  /** The longest prefix of `t[j..]` the automaton accepts, if any. */
  function LongestNumber(t: string, j: nat): Option<nat>
    requires j <= |t|
  {
    Munch(t, j, Start, None)
  }

  /** `LongestNumber` is the longest accepted prefix, and there is none when it is None. */
  lemma LongestNumberIsLongest(t: string, j: nat)
    requires j <= |t|
    ensures var r := LongestNumber(t, j);
      && (r.None? ==> forall e :: j <= e <= |t| ==> !Accepting(Run(Start, t[j..e])))
      && (r.Some? ==>
            && j < r.value <= |t| && Accepting(Run(Start, t[j..r.value]))
            && forall e :: r.value < e <= |t| ==> !Accepting(Run(Start, t[j..e])))
  {
    MunchLongest(t, j, Start, None);
    assert t[j..j] == [];
  }

  /** Reading a run of digits in a digit-looping state. */
  lemma {:induction false} MunchDigits(t: string, k: nat, q: NumState, best: Option<nat>)
    requires k <= |t| && (q == Int || q == Frac || q == ExpInt)
    ensures var d := DigitRun(t, k);
      Munch(t, k, q, best) == Munch(t, d, q, if d > k then Some(d) else best)
    decreases |t| - k
  {
    if k < |t| && IsDigit(t[k]) {
      MunchDigits(t, k + 1, q, Some(k + 1));
    }
  }

  /** After the mantissa, at a position that is not a digit: the exponent, if complete, is read. */
  lemma MunchExponent(t: string, f: nat, q: NumState)
    requires f <= |t| && (q == Int || q == Dot || q == Frac)
    requires f == |t| || !IsDigit(t[f])
    requires q == Int ==> f == |t| || t[f] != '.'
    ensures Munch(t, f, q, Some(f)) == Some(ExponentEnd(t, f))
  {
    if f < |t| && (t[f] == 'e' || t[f] == 'E') {
      MunchExponentMark(t, f, q);
    } else if f < |t| {
      assert Step(q, t[f]) == Dead;
    }
  }

  /** At an `e` or `E` after the mantissa: its sign if any, then its digits, or back to `f` when there are none. */
  lemma MunchExponentMark(t: string, f: nat, q: NumState)
    requires f < |t| && (t[f] == 'e' || t[f] == 'E') && (q == Int || q == Dot || q == Frac)
    ensures Munch(t, f, q, Some(f)) == Some(ExponentEnd(t, f))
  {
    assert Munch(t, f, q, Some(f)) == Munch(t, f + 1, Exp, Some(f));
    if f + 1 < |t| && (t[f + 1] == '+' || t[f + 1] == '-') {
      assert Munch(t, f + 1, Exp, Some(f)) == Munch(t, f + 2, ExpSign, Some(f));
      MunchExponentDigits(t, f + 2, ExpSign, f);
    } else {
      MunchExponentDigits(t, f + 1, Exp, f);
    }
  }

  /** The digits of an exponent, after the `e` and its sign if any: all of them, or back to `f` when there are none. */
  lemma MunchExponentDigits(t: string, m: nat, q: NumState, f: nat)
    requires m <= |t| && (q == Exp || q == ExpSign)
    requires q == Exp ==> m == |t| || (t[m] != '+' && t[m] != '-')
    ensures Munch(t, m, q, Some(f)) == Some(if DigitRun(t, m) > m then DigitRun(t, m) else f)
  {
    if m < |t| && IsDigit(t[m]) {
      assert Munch(t, m, q, Some(f)) == Munch(t, m + 1, ExpInt, Some(m + 1));
      MunchDigits(t, m + 1, ExpInt, Some(m + 1));
    }
  }

  /** After the integer digits: an optional `.` and fraction digits, then the exponent. */
  lemma MunchFraction(t: string, d: nat)
    requires d <= |t| && (d == |t| || !IsDigit(t[d]))
    ensures Munch(t, d, Int, Some(d)) ==
      Some(ExponentEnd(t, if d < |t| && t[d] == '.' then DigitRun(t, d + 1) else d))
  {
    if d < |t| && t[d] == '.' {
      assert Munch(t, d, Int, Some(d)) == Munch(t, d + 1, Dot, Some(d + 1));
      var f := DigitRun(t, d + 1);
      if f > d + 1 {
        assert Munch(t, d + 1, Dot, Some(d + 1)) == Munch(t, d + 2, Frac, Some(d + 2));
        MunchDigits(t, d + 2, Frac, Some(d + 2));
        MunchExponent(t, f, Frac);
      } else {
        MunchExponent(t, f, Dot);
      }
    } else {
      MunchExponent(t, d, Int);
    }
  }

  /** The regex engine's greedy reading of the number pattern finds the longest number. */
  lemma NumberIsLongest(t: string, j: nat)
    requires j <= |t|
    ensures NumberEnd(t, j) == LongestNumber(t, j)
  {
    if j < |t| && t[j] == '-' {
      SignedNumberIsLongest(t, j);
    } else {
      MunchMantissa(t, j, Start);
    }
  }

  /** A number with a leading `-`: the sign is read, then the mantissa. */
  lemma SignedNumberIsLongest(t: string, j: nat)
    requires j < |t| && t[j] == '-'
    ensures NumberEnd(t, j) == LongestNumber(t, j)
  {
    assert Munch(t, j, Start, None) == Munch(t, j + 1, Minus, None);
    MunchMantissa(t, j + 1, Minus);
  }

  /** After the optional `-`: no number without an integer digit, otherwise the digits, fraction and exponent. */
  lemma MunchMantissa(t: string, k: nat, q: NumState)
    requires k <= |t| && (q == Start || q == Minus)
    requires q == Start ==> k == |t| || t[k] != '-'
    ensures var d := DigitRun(t, k);
      Munch(t, k, q, None) ==
        if d == k then None
        else Some(ExponentEnd(t, if d < |t| && t[d] == '.' then DigitRun(t, d + 1) else d))
  {
    var d := DigitRun(t, k);
    if d > k {
      MunchInteger(t, k, q);
    } else if k < |t| {
      assert Step(q, t[k]) == Dead;
    }
  }

  /** With at least one integer digit: the digits, then the fraction and exponent. */
  lemma MunchInteger(t: string, k: nat, q: NumState)
    requires k < |t| && (q == Start || q == Minus) && IsDigit(t[k])
    ensures var d := DigitRun(t, k);
      Munch(t, k, q, None) == Some(ExponentEnd(t, if d < |t| && t[d] == '.' then DigitRun(t, d + 1) else d))
  {
    assert Munch(t, k, q, None) == Munch(t, k + 1, Int, Some(k + 1));
    MunchDigits(t, k + 1, Int, Some(k + 1));
    MunchFraction(t, DigitRun(t, k + 1));
  }

  /** A leading `+` is not a number, nor is a sign alone or a bare exponent. */
  lemma NumberRejects(t: string, j: nat)
    requires j < |t| && (t[j] == '+' || t[j] == '.' || t[j] == 'e')
    ensures NumberEnd(t, j).None?
  {
  }
}
