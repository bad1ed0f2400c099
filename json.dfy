/**
 * The settings document as Python's `json` module hands it to the editor:
 * dicts keep their insertion order, numbers are integers.
 */
module JsonValue {
  import opened Wrappers
  import opened Dict
  import opened PyBuiltins

  datatype Json =
    | Null
    | Bool(b: bool)
    | Num(n: int)
    | Str(s: string)
    | Arr(items: seq<Json>)
    | Obj(fields: seq<Entry<Json>>)

  /** Python truthiness: `None`, `False`, `0`, `""`, `[]` and `{}` are false. */
  predicate Truthy(v: Json)
    ensures Truthy(v) <==> v !in {Null, Bool(false), Num(0), Str(""), Arr([]), Obj([])}
  {
    match v
    case Null => false
    case Bool(b) => b
    case Num(n) => n != 0
    case Str(s) => s != ""
    case Arr(items) => items != []
    case Obj(fields) => fields != []
  }

  /** `d.get(key, default)` on a dict. */
  function GetOr(fields: seq<Entry<Json>>, key: string, default: Json): Json {
    Get(fields, key).GetOr(default)
  }

  /** The dict under `key` in a document, when the document is a dict and that slot a dict (absent reads as `{}`). */
  function Slot(doc: Json, key: string): (r: Option<seq<Entry<Json>>>)
    ensures r.Some? ==> doc.Obj?
    ensures doc.Obj? && key !in Keys(doc.fields) ==> r == Some([])
    ensures doc.Obj? && key in Keys(doc.fields) ==> (r.Some? <==> Get(doc.fields, key).value.Obj?)
    ensures r.Some? && key in Keys(doc.fields) ==> Get(doc.fields, key) == Some(Obj(r.value))
  {
    if !doc.Obj? then None
    else match GetOr(doc.fields, key, Obj([]))
      case Obj(fields) => Some(fields)
      case _ => None
  }

  /** `d` is the dict `doc` with only the value under `key` changed, keys kept in order (a new key goes last). */
  ghost predicate OnlyKeyChanged(doc: Json, d: Json, key: string) {
    && doc.Obj? && d.Obj?
    && (forall k :: k != key ==> Get(d.fields, k) == Get(doc.fields, k))
    && Keys(d.fields) == if key in Keys(doc.fields) then Keys(doc.fields) else Keys(doc.fields) + [key]
  }

  /** `doc[key] = v` on a dict document. */
  function SetKey(doc: Json, key: string, v: Json): (d: Json)
    requires doc.Obj?
    ensures OnlyKeyChanged(doc, d, key) && Get(d.fields, key) == Some(v)
  {
    PutGet(doc.fields, key, v);
    PutKeys(doc.fields, key, v);
    Obj(Put(doc.fields, key, v))
  }

  /** The JSON string values of a list of Python strings. */
  function Strs(ss: seq<string>): (r: seq<Json>)
    ensures |r| == |ss| && forall i :: 0 <= i < |ss| ==> r[i] == Str(ss[i])
  {
    seq(|ss|, i requires 0 <= i < |ss| => Str(ss[i]))
  }

  /** A dict of strings as a JSON object. */
  function StrFields(d: seq<Entry<string>>): (r: seq<Entry<Json>>)
    ensures |r| == |d| && forall i :: 0 <= i < |d| ==> r[i] == Entry(d[i].key, Str(d[i].val))
  {
    seq(|d|, i requires 0 <= i < |d| => Entry(d[i].key, Str(d[i].val)))
  }

  /**
   * `x in v` for a string `x`: list membership, substring of a string, key
   * of a dict; None where Python raises (`in` on null, a bool or a number).
   */
  function PyIn(x: string, v: Json): (r: Option<bool>)
    ensures r.None? <==> v.Null? || v.Bool? || v.Num?
    ensures v.Arr? ==> r == Some(Str(x) in v.items)
    ensures v.Str? ==> r == Some(Contains(v.s, x))
    ensures v.Obj? ==> r == Some(x in Keys(v.fields))
  {
    match v
    case Arr(items) => Some(Str(x) in items)
    case Str(s) => Some(Contains(s, x))
    case Obj(fields) => Some(x in Keys(fields))
    case _ => None
  }

  /** The quote `repr` puts around a string: `'` unless the text has `'` and no `"`. */
  function ReprQuote(s: string): char {
    if '\'' in s && '"' !in s then '"' else '\''
  }

  /**
   * The characters `repr` writes as a hex escape: the C0 and C1 controls,
   * DEL, the no-break space, the soft hyphen, and every whitespace
   * character other than the space (the Unicode separators among them).
   */
  predicate ReprEscaped(c: char) {
    c < ' ' || ('\U{7F}' <= c <= '\U{A0}') || c == '\U{AD}' || (IsSpace(c) && c != ' ')
  }

  /** `16^w`. */
  function Pow16(w: nat): (p: nat)
    ensures p > 0
  {
    if w == 0 then 1 else 16 * Pow16(w - 1)
  }

  /** The lower-case hex digit for `d`. */
  function HexDigit(d: nat): (c: char)
    requires d < 16
    ensures '0' <= c <= '9' || 'a' <= c <= 'f'
  {
    if d < 10 then ('0' as int + d) as char else ('a' as int + d - 10) as char
  }

  /** The value of a hex digit. */
  function HexDigitValue(c: char): nat {
    if '0' <= c <= '9' then c as int - '0' as int
    else if 'a' <= c <= 'f' then c as int - 'a' as int + 10
    else 0
  }

  /** `n` written with exactly `w` lower-case hex digits, leading zeros kept. */
  function Hex(n: nat, w: nat): (r: string)
    ensures |r| == w
    ensures forall k :: 0 <= k < w ==> '0' <= r[k] <= '9' || 'a' <= r[k] <= 'f'
  {
    if w == 0 then "" else Hex(n / 16, w - 1) + [HexDigit(n % 16)]
  }

  /** The number a string of hex digits stands for. */
  function HexValue(s: string): nat {
    if |s| == 0 then 0 else 16 * HexValue(s[..|s| - 1]) + HexDigitValue(s[|s| - 1])
  }

  /** Reading back `w` hex digits gives the number, when it fits in them. */
  lemma {:induction false} HexRoundTrip(n: nat, w: nat)
    requires n < Pow16(w)
    ensures HexValue(Hex(n, w)) == n
  {
    if w > 0 {
      var r := Hex(n, w);
      assert r[..w - 1] == Hex(n / 16, w - 1);
      assert n / 16 < Pow16(w - 1);
      HexRoundTrip(n / 16, w - 1);
      assert HexDigitValue(HexDigit(n % 16)) == n % 16;
    }
  }

  /** The escape `repr` writes for `c`: `\\xhh` below 256, `\\uhhhh` below 65536, else `\\Uhhhhhhhh`. */
  function CharEscape(c: char): (r: string)
    ensures |r| == 4 || |r| == 6 || |r| == 10
    ensures r[0] == '\\' && (r[1] == 'x' || r[1] == 'u' || r[1] == 'U')
    ensures HexValue(r[2..]) == c as int
    ensures forall k :: 0 <= k < |r| ==> !ReprEscaped(r[k])
  {
    var n := c as int;
    var (lead, w) := if n < 0x100 then ('x', 2) else if n < 0x1_0000 then ('u', 4) else ('U', 8);
    EscapeWidths(w);
    HexRoundTrip(n, w);
    HexPrintable(n, w);
    var p := ['\\', lead] + Hex(n, w);
    assert p[2..] == Hex(n, w);
    p
  }

  /** The hex widths of the three escapes hold the code points they are used for. */
  lemma EscapeWidths(w: nat)
    requires w == 2 || w == 4 || w == 8
    ensures w == 2 ==> Pow16(w) == 0x100
    ensures w == 4 ==> Pow16(w) == 0x1_0000
    ensures w == 8 ==> Pow16(w) == 0x1_0000_0000
  {
    assert Pow16(2) == 0x100;
    assert Pow16(4) == 0x1_0000;
  }

  /** Hex digits are printable. */
  lemma HexPrintable(n: nat, w: nat)
    ensures forall k :: 0 <= k < w ==> !ReprEscaped(Hex(n, w)[k])
  {
  }

  /** What `repr` writes for one character `c` of a string quoted with `q`. */
  function ReprChar(c: char, q: char): (e: string)
    requires q == '\'' || q == '"'
    ensures forall k :: 0 <= k < |e| ==> !ReprEscaped(e[k])
    ensures !ReprEscaped(c) && c != '\\' && c != q ==> e == [c]
  {
    if c == '\\' then "\\\\"
    else if c == q then ['\\', q]
    else if c == '\n' then "\\n"
    else if c == '\r' then "\\r"
    else if c == '\t' then "\\t"
    else if ReprEscaped(c) then CharEscape(c)
    else [c]
  }

  /**
   * The body of a string's `repr` between its quotes: the backslash and the
   * quote are escaped, `\n`, `\r` and `\t` get their short escapes, the
   * other characters of `ReprEscaped` their hex escapes.
   */
  function ReprBody(s: string, q: char): string
    requires q == '\'' || q == '"'
  {
    if |s| == 0 then "" else ReprChar(s[0], q) + ReprBody(s[1..], q)
  }

  /** No character `repr` escapes is left in the body. */
  lemma {:induction false} ReprBodyPrintable(s: string, q: char)
    requires q == '\'' || q == '"'
    ensures forall k :: 0 <= k < |ReprBody(s, q)| ==> !ReprEscaped(ReprBody(s, q)[k])
  {
    if |s| > 0 {
      ReprBodyPrintable(s[1..], q);
      var e := ReprChar(s[0], q);
      var rest := ReprBody(s[1..], q);
      assert forall k :: |e| <= k < |e| + |rest| ==> (e + rest)[k] == rest[k - |e|];
    }
  }

  function StrRepr(s: string): (r: string)
    ensures |r| >= 2 && (r[0] == '\'' || r[0] == '"') && r[|r| - 1] == r[0]
    ensures r[0] == '"' <==> '\'' in s && '"' !in s
    ensures forall k :: 0 <= k < |r| ==> !ReprEscaped(r[k])
  {
    var q := ReprQuote(s);
    ReprBodyPrintable(s, q);
    [q] + ReprBody(s, q) + [q]
  }

  /** Python `repr` of a parsed JSON value. */
  function PyRepr(v: Json): (r: string)
    ensures |r| > 0
    ensures v.Str? ==> |r| >= 2 && (r[0] == '\'' || r[0] == '"') && r[|r| - 1] == r[0]
    ensures v.Arr? ==> r[0] == '[' && r[|r| - 1] == ']'
    ensures v.Obj? ==> r[0] == '{' && r[|r| - 1] == '}'
    ensures v.Num? ==> (r[0] == '-' <==> v.n < 0)
    decreases v, 1
  {
    match v
    case Null => "None"
    case Bool(b) => if b then "True" else "False"
    case Num(n) => IntToString(n)
    case Str(s) => StrRepr(s)
    case Arr(items) => "[" + Join(ItemReprs(v, items), ", ") + "]"
    case Obj(fields) => "{" + Join(FieldReprs(v, fields), ", ") + "}"
  }

  function ItemReprs(v: Json, items: seq<Json>): seq<string>
    requires forall i :: 0 <= i < |items| ==> items[i] < v
    decreases v, 0
  {
    seq(|items|, i requires 0 <= i < |items| => PyRepr(items[i]))
  }

  function FieldReprs(v: Json, fields: seq<Entry<Json>>): seq<string>
    requires forall i :: 0 <= i < |fields| ==> fields[i].val < v
    decreases v, 0
  {
    seq(|fields|, i requires 0 <= i < |fields| => StrRepr(fields[i].key) + ": " + PyRepr(fields[i].val))
  }

  /** Python `str` of a parsed JSON value: a string is itself, anything else its `repr`. */
  function PyStr(v: Json): (r: string)
    ensures v.Str? ==> r == v.s
    ensures v == Bool(true) ==> r == "True"
    ensures v == Bool(false) ==> r == "False"
  {
    if v.Str? then v.s else PyRepr(v)
  }

  /**
   * The `json` module: `dump` is `json.dumps(v, indent=2, ensure_ascii=False)`,
   * `load` is `json.loads`, failing with the decoder's message.
   */
  datatype Codec = Codec(dump: Json -> string, load: string -> Result<Json, string>)

  /** Whatever is dumped loads back as the same value. */
  ghost predicate Lawful(c: Codec) {
    forall v :: c.load(c.dump(v)) == Ok(v)
  }
}
