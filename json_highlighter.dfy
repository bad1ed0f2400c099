/**
 * `JsonHighlighter.highlightBlock`: five sweeps over one block of text,
 * writing a category into a per-character format buffer. The first four
 * overwrite their spans; the last writes a span only when all of it is
 * still unformatted.
 */
module JsonHighlighter {
  import opened Wrappers
  import opened PyBuiltins
  import opened JsonPatterns

  /** The per-character formats of a block; None is Qt's default format. */
  type Formats = seq<Option<Category>>

  predicate InRange(spans: seq<Span>, n: nat) {
    forall k :: 0 <= k < |spans| ==> spans[k].start <= spans[k].end <= n
  }

  /** Spans in order, none overlapping the next. */
  predicate Ordered(spans: seq<Span>) {
    forall k :: 0 < k < |spans| ==> spans[k - 1].end <= spans[k].start
  }

  /** `QSyntaxHighlighter::setFormat(start, count, c)`: clamped to the block, nothing for a start outside it. */
  function SetFormatOf(buf: Formats, start: int, count: int, c: Category): (r: Formats)
    ensures |r| == |buf|
    ensures forall i :: 0 <= i < |buf| ==>
      r[i] == if 0 <= start <= i < start + count then Some(c) else buf[i]
  {
    seq(|buf|, i requires 0 <= i < |buf| => if 0 <= start <= i < start + count then Some(c) else buf[i])
  }

  /** The first `n` spans overwritten with `c`, in order; with every span, one of the first four sweeps. */
  function PaintAll(buf: Formats, spans: seq<Span>, n: nat, c: Category): (r: Formats)
    requires n <= |spans| && InRange(spans, |buf|)
    ensures |r| == |buf|
    ensures forall i :: 0 <= i < |buf| && r[i] != buf[i] ==> r[i] == Some(c)
    ensures forall k, i :: 0 <= k < n && spans[k].start <= i < spans[k].end ==> r[i] == Some(c)
  {
    if n == 0 then buf
    else SetFormatOf(PaintAll(buf, spans, n - 1, c), spans[n - 1].start, spans[n - 1].end - spans[n - 1].start, c)
  }

  /** Position `i` lies inside one of the first `n` spans. */
  ghost predicate CoveredBefore(spans: seq<Span>, n: nat, i: int) {
    exists k :: 0 <= k < n <= |spans| && spans[k].start <= i < spans[k].end
  }

  /** After a sweep, a position holds `c` exactly when some span covers it, and is untouched otherwise. */
  lemma {:induction false} PaintAllAt(buf: Formats, spans: seq<Span>, n: nat, c: Category)
    requires n <= |spans| && InRange(spans, |buf|)
    ensures forall i :: 0 <= i < |buf| ==>
      PaintAll(buf, spans, n, c)[i] == if CoveredBefore(spans, n, i) then Some(c) else buf[i]
  {
    if n > 0 {
      PaintAllAt(buf, spans, n - 1, c);
      forall i | 0 <= i < |buf|
        ensures PaintAll(buf, spans, n, c)[i] == if CoveredBefore(spans, n, i) then Some(c) else buf[i]
      {
        CoveredStep(spans, n, i);
      }
    }
  }

  /** The first `n` spans cover a position when the first `n - 1` do or span `n - 1` does. */
  lemma CoveredStep(spans: seq<Span>, n: nat, i: int)
    requires 0 < n <= |spans|
    ensures CoveredBefore(spans, n, i) <==>
      CoveredBefore(spans, n - 1, i) || spans[n - 1].start <= i < spans[n - 1].end
  {
    if CoveredBefore(spans, n, i) && !(spans[n - 1].start <= i < spans[n - 1].end) {
      var k :| 0 <= k < n <= |spans| && spans[k].start <= i < spans[k].end;
      assert k < n - 1;
    }
  }

  /** All the spans together cover exactly what `Covers` says. */
  lemma CoveredAll(spans: seq<Span>, i: int)
    ensures CoveredBefore(spans, |spans|, i) <==> Covers(spans, i)
  {
    if Covers(spans, i) {
      var k :| 0 <= k < |spans| && spans[k].start <= i < spans[k].end;
    }
  }

  /** No position of `[s, e)` is formatted yet. */
  predicate Clear(buf: Formats, s: nat, e: nat)
    requires s <= e <= |buf|
  {
    forall i :: s <= i < e ==> buf[i].None?
  }

  /** The last sweep over the first `n` spans: write `c` on each span that is still entirely unformatted. */
  function PaintIfClear(buf: Formats, spans: seq<Span>, n: nat, c: Category): (r: Formats)
    requires n <= |spans| && InRange(spans, |buf|)
    ensures |r| == |buf|
    ensures forall i :: 0 <= i < |buf| && buf[i].Some? ==> r[i] == buf[i]
    ensures forall i :: 0 <= i < |buf| && r[i] != buf[i] ==> r[i] == Some(c)
  {
    if n == 0 then buf
    else
      var prev := PaintIfClear(buf, spans, n - 1, c);
      var s := spans[n - 1];
      if Clear(prev, s.start, s.end) then SetFormatOf(prev, s.start, s.end - s.start, c) else prev
  }

  /** One of the first `n` spans holds `i` and was entirely clear before the last sweep. */
  ghost predicate WrittenIfClear(buf: Formats, spans: seq<Span>, n: nat, i: int) {
    exists k :: 0 <= k < n <= |spans| && spans[k].start <= i < spans[k].end <= |buf| && Clear(buf, spans[k].start, spans[k].end)
  }

  /**
   * Because the spans do not overlap, each one is judged on the buffer as
   * it was before the sweep: a position ends in `c` exactly when it lies in
   * a span that was entirely clear.
   */
  lemma {:induction false} PaintIfClearAt(buf: Formats, spans: seq<Span>, n: nat, c: Category)
    requires n <= |spans| && InRange(spans, |buf|) && Ordered(spans)
    ensures forall i :: 0 <= i < |buf| ==>
      PaintIfClear(buf, spans, n, c)[i] == if WrittenIfClear(buf, spans, n, i) then Some(c) else buf[i]
  {
    if n > 0 {
      var prev := PaintIfClear(buf, spans, n - 1, c);
      var s := spans[n - 1];
      PaintIfClearAt(buf, spans, n - 1, c);
      // The earlier spans lie before `s`, so the sweep so far left `s` as it was.
      forall i | s.start <= i < s.end ensures prev[i] == buf[i] {
        EarlierSpansMiss(buf, spans, n, i);
      }
      assert Clear(prev, s.start, s.end) == Clear(buf, s.start, s.end);
      forall i | 0 <= i < |buf|
        ensures PaintIfClear(buf, spans, n, c)[i] == if WrittenIfClear(buf, spans, n, i) then Some(c) else buf[i]
      {
        WrittenStep(buf, spans, n, i);
      }
    }
  }

  /** A position of span `n - 1` lies in none of the spans before it. */
  lemma EarlierSpansMiss(buf: Formats, spans: seq<Span>, n: nat, i: int)
    requires 0 < n <= |spans| && InRange(spans, |buf|) && Ordered(spans)
    requires spans[n - 1].start <= i < spans[n - 1].end
    ensures !WrittenIfClear(buf, spans, n - 1, i)
  {
    forall k | 0 <= k < n - 1 ensures !(spans[k].start <= i < spans[k].end) {
      OrderedEnds(spans, |buf|, k, n - 1);
    }
  }

  /** The first `n` spans write `i` when the first `n - 1` do or span `n - 1` does. */
  lemma WrittenStep(buf: Formats, spans: seq<Span>, n: nat, i: int)
    requires 0 < n <= |spans| && InRange(spans, |buf|)
    ensures var s := spans[n - 1];
      WrittenIfClear(buf, spans, n, i) <==>
        WrittenIfClear(buf, spans, n - 1, i) || (s.start <= i < s.end && Clear(buf, s.start, s.end))
  {
    if WrittenIfClear(buf, spans, n, i) {
      var k :| 0 <= k < n <= |spans| && spans[k].start <= i < spans[k].end <= |buf| && Clear(buf, spans[k].start, spans[k].end);
    }
  }

  /** In ordered spans every earlier span ends before a later one starts. */
  lemma {:induction false} OrderedEnds(spans: seq<Span>, m: nat, k: nat, n: nat)
    requires Ordered(spans) && InRange(spans, m) && k < n < |spans|
    ensures spans[k].end <= spans[n].start
    decreases n - k
  {
    if k + 1 < n {
      OrderedEnds(spans, m, k + 1, n);
    }
  }

  /** The last sweep on one span: all of it becomes `c` when it was clear, otherwise all of it stays. */
  lemma PaintIfClearSpan(buf: Formats, spans: seq<Span>, c: Category, k: nat)
    requires InRange(spans, |buf|) && Ordered(spans) && k < |spans|
    ensures var s, r := spans[k], PaintIfClear(buf, spans, |spans|, c);
      && (Clear(buf, s.start, s.end) ==> forall i :: s.start <= i < s.end ==> r[i] == Some(c))
      && (!Clear(buf, s.start, s.end) ==> forall i :: s.start <= i < s.end ==> r[i] == buf[i])
  {
    var s := spans[k];
    PaintIfClearAt(buf, spans, |spans|, c);
    forall i | s.start <= i < s.end && !Clear(buf, s.start, s.end) ensures !WrittenIfClear(buf, spans, |spans|, i) {
      if WrittenIfClear(buf, spans, |spans|, i) {
        var m :| 0 <= m < |spans| && spans[m].start <= i < spans[m].end <= |buf| && Clear(buf, spans[m].start, spans[m].end);
        if m < k {
          OrderedEnds(spans, |buf|, m, k);
        } else if m > k {
          OrderedEnds(spans, |buf|, k, m);
        }
      }
    }
  }

  /** When no span is entirely clear, the last sweep writes nothing. */
  lemma {:induction false} NoneClearKeeps(buf: Formats, spans: seq<Span>, n: nat, c: Category)
    requires n <= |spans| && InRange(spans, |buf|)
    requires forall k :: 0 <= k < n ==> !Clear(buf, spans[k].start, spans[k].end)
    ensures PaintIfClear(buf, spans, n, c) == buf
  {
    if n > 0 {
      NoneClearKeeps(buf, spans, n - 1, c);
    }
  }

  /** One of the first four sweeps over `buf`: every match of the pattern of `c` overwritten with `c`. */
  function SweepOf(buf: Formats, t: string, c: Category): (r: Formats)
    requires |buf| == |t|
    ensures |r| == |t|
    ensures forall i :: 0 <= i < |t| && r[i] != buf[i] ==> r[i] == Some(c)
    ensures forall i :: 0 <= i < |t| && Covers(FindAll(c, t, 0), i) ==> r[i] == Some(c)
  {
    var spans := FindAll(c, t, 0);
    PaintAll(buf, spans, |spans|, c)
  }

  /** After one of the first four sweeps, exactly the positions the pattern covers hold `c`. */
  lemma SweepOfAt(buf: Formats, t: string, c: Category, i: nat)
    requires |buf| == |t| && i < |t|
    ensures SweepOf(buf, t, c)[i] == if Covers(FindAll(c, t, 0), i) then Some(c) else buf[i]
  {
    var spans := FindAll(c, t, 0);
    PaintAllAt(buf, spans, |spans|, c);
    CoveredAll(spans, i);
  }

  /** The buffer after the first four sweeps, each overwriting the spans of its pattern. */
  function FirstFour(t: string): (r: Formats)
    ensures |r| == |t|
    ensures forall i :: 0 <= i < |t| ==> r[i] != Some(GeneralString)
  {
    var b0 := seq(|t|, _ => None);
    SweepOf(SweepOf(SweepOf(SweepOf(b0, t, Literal), t, Key), t, StringValue), t, Number)
  }

  /** The formats `highlightBlock(t)` leaves. */
  function Highlight(t: string): (r: Formats)
    ensures |r| == |t|
    ensures forall i :: 0 <= i < |t| && FirstFour(t)[i].Some? ==> r[i] == FirstFour(t)[i]
    ensures forall i :: 0 <= i < |t| && r[i] != FirstFour(t)[i] ==> r[i] == Some(GeneralString)
  {
    var spans := FindAll(GeneralString, t, 0);
    PaintIfClear(FirstFour(t), spans, |spans|, GeneralString)
  }

  /**
   * The latest of the first four sweeps to cover a position decides its
   * format; a position none of them covers is still unformatted.
   */
  lemma LatestSweepWins(t: string, i: nat)
    requires i < |t|
    ensures FirstFour(t)[i] ==
      if Covers(FindAll(Number, t, 0), i) then Some(Number)
      else if Covers(FindAll(StringValue, t, 0), i) then Some(StringValue)
      else if Covers(FindAll(Key, t, 0), i) then Some(Key)
      else if Covers(FindAll(Literal, t, 0), i) then Some(Literal)
      else None
  {
    var b0 := seq(|t|, _ => None);
    var b1 := SweepOf(b0, t, Literal);
    var b2 := SweepOf(b1, t, Key);
    var b3 := SweepOf(b2, t, StringValue);
    SweepOfAt(b0, t, Literal, i);
    SweepOfAt(b1, t, Key, i);
    SweepOfAt(b2, t, StringValue, i);
    SweepOfAt(b3, t, Number, i);
  }

  /**
   * The last sweep writes a generic string span only where none of the
   * first four sweeps wrote, and then all of it; a position no sweep
   * writes stays unformatted.
   */
  lemma GeneralOnlyWhereClear(t: string, i: nat)
    requires i < |t|
    ensures var spans := FindAll(GeneralString, t, 0);
      Highlight(t)[i] ==
        if WrittenIfClear(FirstFour(t), spans, |spans|, i) then Some(GeneralString) else FirstFour(t)[i]
    ensures var spans := FindAll(GeneralString, t, 0);
      Highlight(t)[i].None? <==>
        && !Covers(FindAll(Literal, t, 0), i) && !Covers(FindAll(Key, t, 0), i)
        && !Covers(FindAll(StringValue, t, 0), i) && !Covers(FindAll(Number, t, 0), i)
        && !WrittenIfClear(FirstFour(t), spans, |spans|, i)
  {
    var spans := FindAll(GeneralString, t, 0);
    PaintIfClearAt(FirstFour(t), spans, |spans|, GeneralString);
    LatestSweepWins(t, i);
  }

  /** A generic string span is never written in part: after the sweep it is all generic, or as it was. */
  lemma GeneralAllOrNothing(t: string, k: nat)
    requires k < |FindAll(GeneralString, t, 0)|
    ensures var s, b := FindAll(GeneralString, t, 0)[k], FirstFour(t);
      || (forall i :: s.start <= i < s.end ==> Highlight(t)[i] == Some(GeneralString))
      || (forall i :: s.start <= i < s.end ==> Highlight(t)[i] == b[i])
  {
    var spans := FindAll(GeneralString, t, 0);
    assert Highlight(t) == PaintIfClear(FirstFour(t), spans, |spans|, GeneralString);
    PaintIfClearSpan(FirstFour(t), spans, GeneralString, k);
  }

  /** When every generic string match starts on an already formatted character, the last sweep changes nothing. */
  lemma NothingClearKeepsFirstFour(t: string)
    requires forall k :: 0 <= k < |FindAll(GeneralString, t, 0)| ==>
      FirstFour(t)[FindAll(GeneralString, t, 0)[k].start].Some?
    ensures Highlight(t) == FirstFour(t)
  {
    var g := FindAll(GeneralString, t, 0);
    NoneClearKeeps(FirstFour(t), g, |g|, GeneralString);
  }

  /** The text `"k": "v"`. */
  const KeyValueText := "\"k\": \"v\""

  /** A word found at `i` starts with the character at `i`. */
  lemma WordAtFirst(t: string, i: nat, w: string)
    requires |w| > 0
    ensures WordAt(t, i, w) ==> t[i] == w[0]
  {
    if WordAt(t, i, w) {
      assert t[i] == t[i..i + |w|][0];
    }
  }

  /** `"k": "v"` holds no literal. */
  lemma KeyValueLiterals()
    ensures FindAll(Literal, KeyValueText, 0) == []
  {
    var t := KeyValueText;
    forall i | 0 <= i < |t| ensures MatchAt(Literal, t, i).None? {
      assert t[i] != 't' && t[i] != 'f' && t[i] != 'n';
      WordAtFirst(t, i, "true");
      WordAtFirst(t, i, "false");
      WordAtFirst(t, i, "null");
    }
    FindAllSkips(Literal, t, 0, 8);
  }

  /** Its one key is `"k":`. */
  lemma KeyValueKeys()
    ensures FindAll(Key, KeyValueText, 0) == [Span(0, 4)]
  {
    var t := KeyValueText;
    assert NextQuote(t, 1) == 2;
    assert SpaceRun(t, 3) == 3;
    assert MatchAt(Key, t, 0) == Some(4);
    assert NextQuote(t, 6) == 7;
    assert SpaceRun(t, 8) == 8;
    assert forall i :: 4 <= i < 8 ==> MatchAt(Key, t, i).None?;
    FindAllSkips(Key, t, 4, 8);
  }

  /** Its one string value runs from the colon to the closing quote. */
  lemma KeyValueStrings()
    ensures FindAll(StringValue, KeyValueText, 0) == [Span(3, 8)]
  {
    var t := KeyValueText;
    assert forall i :: 0 <= i < 3 ==> MatchAt(StringValue, t, i).None?;
    FindAllSkips(StringValue, t, 0, 3);
    KeyValueStringMatch(t);
  }

  /** The string value starts at the colon and ends after the closing quote. */
  lemma KeyValueStringMatch(t: string)
    requires t == KeyValueText
    ensures MatchAt(StringValue, t, 3) == Some(8)
  {
    assert SpaceRun(t, 4) == 5;
    assert NextQuote(t, 6) == 7;
  }

  /** It holds no number. */
  lemma KeyValueNumbers()
    ensures FindAll(Number, KeyValueText, 0) == []
  {
    var t := KeyValueText;
    assert SpaceRun(t, 4) == 5;
    assert DigitRun(t, 5) == 5;
    assert forall i :: 0 <= i < 8 ==> MatchAt(Number, t, i).None?;
    FindAllSkips(Number, t, 0, 8);
  }

  /** Both quoted texts are generic string matches. */
  lemma KeyValueGeneral()
    ensures FindAll(GeneralString, KeyValueText, 0) == [Span(0, 3), Span(5, 8)]
  {
    var t := KeyValueText;
    assert NextQuote(t, 1) == 2;
    assert MatchAt(GeneralString, t, 0) == Some(3);
    assert forall i :: 3 <= i < 5 ==> MatchAt(GeneralString, t, i).None?;
    FindAllSkips(GeneralString, t, 3, 5);
    assert NextQuote(t, 6) == 7;
    assert MatchAt(GeneralString, t, 5) == Some(8);
  }

  /** After the first four sweeps the key is Key and the colon onward StringValue. */
  lemma KeyValueFirstFour()
    ensures FirstFour(KeyValueText) ==
      [Some(Key), Some(Key), Some(Key), Some(StringValue), Some(StringValue), Some(StringValue), Some(StringValue), Some(StringValue)]
  {
    KeyValueKeyPart();
    KeyValueStringPart();
  }

  /** A position the key sweep covers and neither later sweep does ends as Key. */
  lemma KeyWins(t: string, i: nat)
    requires i < |t| && Covers(FindAll(Key, t, 0), i)
    requires !Covers(FindAll(StringValue, t, 0), i) && !Covers(FindAll(Number, t, 0), i)
    ensures FirstFour(t)[i] == Some(Key)
  {
    LatestSweepWins(t, i);
  }

  /** A position the string value sweep covers and the number sweep does not ends as StringValue. */
  lemma StringValueWins(t: string, i: nat)
    requires i < |t| && Covers(FindAll(StringValue, t, 0), i) && !Covers(FindAll(Number, t, 0), i)
    ensures FirstFour(t)[i] == Some(StringValue)
  {
    LatestSweepWins(t, i);
  }

  /** The quoted key keeps Key: no later sweep reaches it. */
  lemma KeyValueKeyPart()
    ensures forall i :: 0 <= i < 3 ==> FirstFour(KeyValueText)[i] == Some(Key)
  {
    var t := KeyValueText;
    KeyValueKeys();
    KeyValueStrings();
    KeyValueNumbers();
    var keys, strings := FindAll(Key, t, 0), FindAll(StringValue, t, 0);
    forall i | 0 <= i < 3 ensures FirstFour(t)[i] == Some(Key) {
      assert keys[0].start <= i < keys[0].end;
      KeyWins(t, i);
    }
  }

  /** The colon, which the key sweep wrote, and the value end as StringValue. */
  lemma KeyValueStringPart()
    ensures forall i :: 3 <= i < 8 ==> FirstFour(KeyValueText)[i] == Some(StringValue)
  {
    var t := KeyValueText;
    KeyValueStrings();
    KeyValueNumbers();
    var strings := FindAll(StringValue, t, 0);
    forall i | 3 <= i < 8 ensures FirstFour(t)[i] == Some(StringValue) {
      assert strings[0].start <= i < strings[0].end;
      StringValueWins(t, i);
    }
  }

  /** In `"k": "v"` the key and its colon end as Key and then the colon onward as StringValue. */
  lemma KeyValueExample(t: string)
    requires t == KeyValueText
    ensures Highlight(t) ==
      [Some(Key), Some(Key), Some(Key), Some(StringValue), Some(StringValue), Some(StringValue), Some(StringValue), Some(StringValue)]
  {
    KeyValueGeneralFormatted(t);
    KeyValueFirstFour();
    NothingClearKeepsFirstFour(t);
  }

  /** Both generic string matches start on a character the first four sweeps formatted. */
  lemma KeyValueGeneralFormatted(t: string)
    requires t == KeyValueText
    ensures forall k :: 0 <= k < |FindAll(GeneralString, t, 0)| ==> FirstFour(t)[FindAll(GeneralString, t, 0)[k].start].Some?
  {
    KeyValueGeneral();
    KeyValueFirstFour();
  }

  /** The highlighter of one block: its format buffer. */
  class Highlighter {
    var formats: array<Option<Category>>

    constructor()
      ensures formats.Length == 0
    {
      formats := new Option<Category>[0];
    }

    /** `format(i)`: the format at `i`, the default outside the block. */
    function Format(i: int): Option<Category>
      reads this, formats
    {
      if 0 <= i < formats.Length then formats[i] else None
    }

    /** `setFormat(start, count, c)`. */
    method SetFormat(start: int, count: int, c: Category)
      modifies formats
      ensures formats[..] == SetFormatOf(old(formats[..]), start, count, c)
    {
      if start < 0 || start >= formats.Length {
        return;
      }
      var end := if start + count < formats.Length then start + count else formats.Length;
      var i := start;
      while i < end
        invariant start <= i && (i <= end || end < start)
        invariant forall j :: 0 <= j < formats.Length ==>
          formats[j] == if start <= j < i && j < end then Some(c) else old(formats[j])
      {
        formats[i] := Some(c);
        i := i + 1;
      }
    }

    /** One of the first four sweeps: `setFormat` on every match of the pattern of `c`. */
    method Sweep(c: Category, text: string)
      requires formats.Length == |text|
      modifies formats
      ensures formats[..] == SweepOf(old(formats[..]), text, c)
    {
      var spans := FindAll(c, text, 0);
      PaintSpans(spans, c);
    }

    /** The loop over the matches of one sweep: each one is written with `setFormat`. */
    method PaintSpans(spans: seq<Span>, c: Category)
      requires InRange(spans, formats.Length)
      modifies formats
      ensures formats[..] == PaintAll(old(formats[..]), spans, |spans|, c)
    {
      ghost var buf := formats[..];
      var k := 0;
      while k < |spans|
        invariant 0 <= k <= |spans|
        invariant formats[..] == PaintAll(buf, spans, k, c)
      {
        SetFormat(spans[k].start, spans[k].end - spans[k].start, c);
        k := k + 1;
      }
    }

    /** The `already_highlighted` scan: is any position of `[s, e)` formatted? Stops at the first one. */
    method AlreadyHighlighted(s: nat, e: nat) returns (already: bool)
      requires s <= e <= formats.Length
      ensures already <==> !Clear(formats[..], s, e)
    {
      already := false;
      var i := s;
      while i < e
        invariant s <= i <= e
        invariant forall j :: s <= j < i ==> formats[j].None?
      {
        if Format(i) != None {
          return true;
        }
        i := i + 1;
      }
    }

    /** The last sweep: a generic string match is written only if no character of it is formatted yet. */
    method SweepIfClear(text: string)
      requires formats.Length == |text|
      modifies formats
      ensures var spans := FindAll(GeneralString, text, 0);
        formats[..] == PaintIfClear(old(formats[..]), spans, |spans|, GeneralString)
    {
      var spans := FindAll(GeneralString, text, 0);
      WriteAllIfClear(spans);
    }

    /** The loop over the generic string matches: each one goes through `WriteIfClear`. */
    method WriteAllIfClear(spans: seq<Span>)
      requires InRange(spans, formats.Length)
      modifies formats
      ensures formats[..] == PaintIfClear(old(formats[..]), spans, |spans|, GeneralString)
    {
      ghost var buf := formats[..];
      var k := 0;
      while k < |spans|
        invariant 0 <= k <= |spans|
        invariant formats[..] == PaintIfClear(buf, spans, k, GeneralString)
      {
        WriteIfClear(spans[k].start, spans[k].end);
        k := k + 1;
      }
    }

    /** One match of the last sweep: written only if no character of it is formatted yet. */
    method WriteIfClear(s: nat, e: nat)
      requires s <= e <= formats.Length
      modifies formats
      ensures formats[..] ==
        if Clear(old(formats[..]), s, e) then SetFormatOf(old(formats[..]), s, e - s, GeneralString) else old(formats[..])
    {
      var already := AlreadyHighlighted(s, e);
      if !already {
        SetFormat(s, e - s, GeneralString);
      }
    }

    /** `highlightBlock(text)`: the five sweeps in order on a fresh, unformatted buffer. */
    method HighlightBlock(text: string)
      modifies this
      ensures formats[..] == Highlight(text)
    {
      formats := new Option<Category>[|text|](_ => None);
      assert formats[..] == seq(|text|, _ => None);
      Sweep(Literal, text);
      Sweep(Key, text);
      Sweep(StringValue, text);
      Sweep(Number, text);
      SweepIfClear(text);
    }
  }
}
