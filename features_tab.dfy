/**
 * The experimental features tab: two tables, the Statsig gates
 * (`cachedStatsigGates`, one check box per gate) and the GrowthBook
 * features (`cachedGrowthBookFeatures`, one editable text per feature).
 */
module FeaturesTab {
  import opened Wrappers
  import opened Dict
  import opened PyBuiltins
  import opened JsonValue
  import opened MainWindow

  const GatesKey := "cachedStatsigGates"
  const FlagsKey := "cachedGrowthBookFeatures"

  /** A Statsig row: the name item and the check box item, either of which may be missing. */
  datatype GateRow = GateRow(name: Option<string>, checked: Option<bool>)

  /** A GrowthBook row: the name item and the value item, either of which may be missing. */
  datatype FlagRow = FlagRow(name: Option<string>, text: Option<string>)

  /** How a feature value is shown: `None` as `null`, anything else through `str`. */
  function Render(v: Json): (r: string)
    ensures v.Null? ==> r == "null"
    ensures v.Str? ==> r == v.s
    ensures v.Bool? ==> r == if v.b then "True" else "False"
    ensures v.Num? ==> r == IntToString(v.n)
  {
    if v.Null? then "null" else PyStr(v)
  }

  /** The value a feature's text is saved as. */
  function Coerce(text: string): (r: Json)
    ensures r.Str? ==> r.s == text
    ensures text !in {"true", "false", "null", "{}"} ==> r == Str(text)
  {
    if text == "true" then Bool(true)
    else if text == "false" then Bool(false)
    else if text == "null" then Null
    else if text == "N/A" then Str("N/A")
    else if text == "{}" then Obj([])
    else Str(text)
  }

  /** The coercion table read both ways: four words have a meaning, every other text stays text. */
  lemma CoerceCases(text: string)
    ensures Coerce(text) == Bool(true) <==> text == "true"
    ensures Coerce(text) == Bool(false) <==> text == "false"
    ensures Coerce(text) == Null <==> text == "null"
    ensures Coerce(text) == Obj([]) <==> text == "{}"
    ensures Coerce(text).Str? <==> text !in {"true", "false", "null", "{}"}
    ensures Coerce(text).Str? ==> Coerce(text).s == text
  {
  }

  /**
   * Showing a value and saving the text back gives the same value exactly
   * for `None`, `{}` and strings other than the four coerced words.
   */
  lemma RenderCoerce(v: Json)
    ensures Coerce(Render(v)) == v <==>
      v == Null || v == Obj([]) || (v.Str? && v.s !in {"true", "false", "null", "{}"})
  {
    CoerceCases(Render(v));
    if v == Obj([]) {
      assert Render(v) == "{" + Join([], ", ") + "}";
    }
  }

  /** A load followed by a save does not keep booleans: `True` is shown as `True` and saved as that text. */
  lemma LoadSaveTurnsTrueIntoText()
    ensures Coerce(Render(Bool(true))) == Str("True")
    ensures Coerce(Render(Bool(false))) == Str("False")
  {
  }

  /** The Statsig rows `load_data` shows for a gate dict: checked exactly when the value is truthy. */
  function GateRows(gates: seq<Entry<Json>>): seq<GateRow> {
    seq(|gates|, i requires 0 <= i < |gates| => GateRow(Some(gates[i].key), Some(Truthy(gates[i].val))))
  }

  /** The GrowthBook rows `load_data` shows for a feature dict. */
  function FlagRows(flags: seq<Entry<Json>>): seq<FlagRow> {
    seq(|flags|, i requires 0 <= i < |flags| => FlagRow(Some(flags[i].key), Some(Render(flags[i].val))))
  }

  /**
   * The Statsig table after `load_data(doc)`: unchanged when `doc` is not a
   * dict (the lookup raises first), emptied and left empty when the gate
   * slot is not a dict (the table is cleared, then iterating raises).
   */
  function LoadedGates(doc: Json, prev: seq<GateRow>): (r: seq<GateRow>)
    ensures !doc.Obj? ==> r == prev
    ensures doc.Obj? && Slot(doc, GatesKey).None? ==> r == []
    ensures doc.Obj? && Slot(doc, GatesKey).Some? ==>
      var gates := Slot(doc, GatesKey).value;
      |r| == |gates| &&
      forall i :: 0 <= i < |gates| ==> r[i].name == Some(gates[i].key) && r[i].checked == Some(Truthy(gates[i].val))
  {
    if !doc.Obj? then prev
    else match Slot(doc, GatesKey)
      case None => []
      case Some(gates) => GateRows(gates)
  }

  /** The GrowthBook table after `load_data(doc)`: it is reached only once the gates loaded. */
  function LoadedFlags(doc: Json, prev: seq<FlagRow>): (r: seq<FlagRow>)
    ensures !doc.Obj? || Slot(doc, GatesKey).None? ==> r == prev
    ensures doc.Obj? && Slot(doc, GatesKey).Some? && Slot(doc, FlagsKey).None? ==> r == []
    ensures doc.Obj? && Slot(doc, GatesKey).Some? && Slot(doc, FlagsKey).Some? ==>
      var flags := Slot(doc, FlagsKey).value;
      |r| == |flags| &&
      forall i :: 0 <= i < |flags| ==> r[i].name == Some(flags[i].key) && r[i].text == Some(Render(flags[i].val))
  {
    if !doc.Obj? || Slot(doc, GatesKey).None? then prev
    else match Slot(doc, FlagsKey)
      case None => []
      case Some(flags) => FlagRows(flags)
  }

  /** A double click on (`row`, `col`): only column 1 of an existing row with a check box flips. */
  function Toggled(rows: seq<GateRow>, row: int, col: int): (r: seq<GateRow>)
    ensures |r| == |rows|
    ensures forall i :: 0 <= i < |rows| && i != row ==> r[i] == rows[i]
    ensures col == 1 && 0 <= row < |rows| && rows[row].checked.Some? ==>
      r[row].name == rows[row].name && r[row].checked == Some(!rows[row].checked.value)
    ensures !(col == 1 && 0 <= row < |rows| && rows[row].checked.Some?) ==> r == rows
  {
    if col == 1 && 0 <= row < |rows| && rows[row].checked.Some? then
      rows[row := rows[row].(checked := Some(!rows[row].checked.value))]
    else rows
  }

  /** Toggling the same cell twice restores the table; any other column is left alone. */
  lemma ToggleTwice(rows: seq<GateRow>, row: int, col: int)
    ensures Toggled(Toggled(rows, row, col), row, col) == rows
    ensures col != 1 ==> Toggled(rows, row, col) == rows
    ensures forall i :: 0 <= i < |rows| && i != row ==> Toggled(rows, row, col)[i] == rows[i]
  {
  }

  /** The assignment one Statsig row makes in `save_features`. */
  function GatePair(row: GateRow): Option<Entry<Json>> {
    if row.name.Some? && row.checked.Some? then Some(Entry(row.name.value, Bool(row.checked.value))) else None
  }

  /** The assignment one GrowthBook row makes in `save_features`. */
  function FlagPair(row: FlagRow): Option<Entry<Json>> {
    if row.name.Some? && row.text.Some? then Some(Entry(row.name.value, Coerce(row.text.value))) else None
  }

  /** The assignments of the Statsig rows, one per row, in table order. */
  function GatePairs(rows: seq<GateRow>): (ps: seq<Option<Entry<Json>>>)
    ensures |ps| == |rows| && forall i :: 0 <= i < |rows| ==> ps[i] == GatePair(rows[i])
  {
    seq(|rows|, i requires 0 <= i < |rows| => GatePair(rows[i]))
  }

  /** The assignments of the GrowthBook rows, one per row, in table order. */
  function FlagPairs(rows: seq<FlagRow>): (ps: seq<Option<Entry<Json>>>)
    ensures |ps| == |rows| && forall i :: 0 <= i < |rows| ==> ps[i] == FlagPair(rows[i])
  {
    seq(|rows|, i requires 0 <= i < |rows| => FlagPair(rows[i]))
  }

  /** Some Statsig row with both items names the entry's key, and the entry holds that row's check state. */
  ghost predicate FromGateRow(rows: seq<GateRow>, e: Entry<Json>) {
    exists j :: 0 <= j < |rows| && rows[j].name == Some(e.key) && rows[j].checked.Some? && e.val == Bool(rows[j].checked.value)
  }

  /** Some GrowthBook row with both items names the entry's key, and the entry holds that row's coerced text. */
  ghost predicate FromFlagRow(rows: seq<FlagRow>, e: Entry<Json>) {
    exists j :: 0 <= j < |rows| && rows[j].name == Some(e.key) && rows[j].text.Some? && e.val == Coerce(rows[j].text.value)
  }

  /** The gate dict `save_features` builds. */
  function SavedGates(rows: seq<GateRow>): (d: seq<Entry<Json>>)
    ensures UniqueKeys(d)
    ensures forall i :: 0 <= i < |d| ==> FromGateRow(rows, d[i])
  {
    var ps := GatePairs(rows);
    FromPairsKeys(ps);
    FromPairsEntries(ps);
    GatesFromRows(rows, FromPairs(ps));
    FromPairs(ps)
  }

  /** Every entry drawn from the gate assignments comes from a row with both items. */
  lemma GatesFromRows(rows: seq<GateRow>, d: seq<Entry<Json>>)
    requires forall i :: 0 <= i < |d| ==> Some(d[i]) in GatePairs(rows)
    ensures forall i :: 0 <= i < |d| ==> FromGateRow(rows, d[i])
  {
    var ps := GatePairs(rows);
    forall i | 0 <= i < |d|
      ensures FromGateRow(rows, d[i])
    {
      assert Some(d[i]) in ps;
      var j :| 0 <= j < |ps| && ps[j] == Some(d[i]);
      assert GatePair(rows[j]) == Some(d[i]);
      assert rows[j].name == Some(d[i].key) && rows[j].checked.Some? && d[i].val == Bool(rows[j].checked.value);
    }
  }

  /** The feature dict `save_features` builds. */
  function SavedFlags(rows: seq<FlagRow>): (d: seq<Entry<Json>>)
    ensures UniqueKeys(d)
    ensures forall i :: 0 <= i < |d| ==> FromFlagRow(rows, d[i])
  {
    var ps := FlagPairs(rows);
    FromPairsKeys(ps);
    FromPairsEntries(ps);
    FlagsFromRows(rows, FromPairs(ps));
    FromPairs(ps)
  }

  /** Every entry drawn from the flag assignments comes from a row with both items. */
  lemma FlagsFromRows(rows: seq<FlagRow>, d: seq<Entry<Json>>)
    requires forall i :: 0 <= i < |d| ==> Some(d[i]) in FlagPairs(rows)
    ensures forall i :: 0 <= i < |d| ==> FromFlagRow(rows, d[i])
  {
    var ps := FlagPairs(rows);
    forall i | 0 <= i < |d|
      ensures FromFlagRow(rows, d[i])
    {
      assert Some(d[i]) in ps;
      var j :| 0 <= j < |ps| && ps[j] == Some(d[i]);
      assert FlagPair(rows[j]) == Some(d[i]);
      assert rows[j].name == Some(d[i].key) && rows[j].text.Some? && d[i].val == Coerce(rows[j].text.value);
    }
  }

  /**
   * A gate is saved exactly when some row with both items names it; it is
   * saved as `True` exactly when the last such row is checked.
   */
  lemma SavedGateIsLastRow(rows: seq<GateRow>, i: nat)
    requires IsLastEntry(GatePairs(rows), i)
    ensures rows[i].name.Some? && rows[i].checked.Some?
    ensures Get(SavedGates(rows), rows[i].name.value) == Some(Bool(rows[i].checked.value))
  {
    var ps := GatePairs(rows);
    FromPairsGet(ps, ps[i].value.key, ps[i].value.val);
  }

  /** Rows missing an item are skipped: the saved names are those of rows with both items. */
  lemma SavedGateNames(rows: seq<GateRow>)
    ensures UniqueKeys(SavedGates(rows))
    ensures forall k :: k in Keys(SavedGates(rows)) <==>
      exists i :: 0 <= i < |rows| && rows[i].name == Some(k) && rows[i].checked.Some?
  {
    var ps := GatePairs(rows);
    FromPairsKeys(ps);
    forall k ensures k in Keys(SavedGates(rows)) <==>
      exists i :: 0 <= i < |rows| && rows[i].name == Some(k) && rows[i].checked.Some?
    {
      if exists i :: 0 <= i < |rows| && rows[i].name == Some(k) && rows[i].checked.Some? {
        var i :| 0 <= i < |rows| && rows[i].name == Some(k) && rows[i].checked.Some?;
        assert ps[i].Some? && ps[i].value.key == k;
      }
    }
  }

  /** A feature is saved as the coercion of the text of the last row with both items naming it. */
  lemma SavedFlagIsLastRow(rows: seq<FlagRow>, i: nat)
    requires IsLastEntry(FlagPairs(rows), i)
    ensures rows[i].name.Some? && rows[i].text.Some?
    ensures Get(SavedFlags(rows), rows[i].name.value) == Some(Coerce(rows[i].text.value))
  {
    var ps := FlagPairs(rows);
    FromPairsGet(ps, ps[i].value.key, ps[i].value.val);
  }

  /** Saving a freshly loaded gate table stores each gate's truthiness as a boolean, in order. */
  lemma LoadThenSaveGates(gates: seq<Entry<Json>>)
    requires UniqueKeys(gates)
    ensures SavedGates(GateRows(gates)) ==
      seq(|gates|, i requires 0 <= i < |gates| => Entry(gates[i].key, Bool(Truthy(gates[i].val))))
  {
    var want := seq(|gates|, i requires 0 <= i < |gates| => Entry(gates[i].key, Bool(Truthy(gates[i].val))));
    assert Keys(want) == Keys(gates);
    assert GatePairs(GateRows(gates)) == seq(|want|, i requires 0 <= i < |want| => Some(want[i]));
    FromPairsRebuilds(want);
  }

  /** Saving a freshly loaded feature table stores each feature as the coercion of how it was shown. */
  lemma LoadThenSaveFlags(flags: seq<Entry<Json>>)
    requires UniqueKeys(flags)
    ensures SavedFlags(FlagRows(flags)) ==
      seq(|flags|, i requires 0 <= i < |flags| => Entry(flags[i].key, Coerce(Render(flags[i].val))))
  {
    var want := seq(|flags|, i requires 0 <= i < |flags| => Entry(flags[i].key, Coerce(Render(flags[i].val))));
    assert Keys(want) == Keys(flags);
    assert FlagPairs(FlagRows(flags)) == seq(|want|, i requires 0 <= i < |want| => Some(want[i]));
    FromPairsRebuilds(want);
  }

  /** `save_features` on the document: both dicts are replaced wholesale. */
  function SaveFeaturesTo(doc: Json, gates: seq<GateRow>, flags: seq<FlagRow>): (r: Result<Json, EditError>)
    ensures r.Ok? <==> doc.Obj?
  {
    if !doc.Obj? then Err(WrongShape)
    else Ok(SetKey(SetKey(doc, GatesKey, Obj(SavedGates(gates))), FlagsKey, Obj(SavedFlags(flags))))
  }

  /** Only the two feature dicts change, each becoming exactly what the tables hold. */
  lemma SaveFeaturesEffect(doc: Json, gates: seq<GateRow>, flags: seq<FlagRow>)
    requires doc.Obj?
    ensures var d := SaveFeaturesTo(doc, gates, flags).value;
      && Get(d.fields, GatesKey) == Some(Obj(SavedGates(gates)))
      && Get(d.fields, FlagsKey) == Some(Obj(SavedFlags(flags)))
      && (forall k :: k != GatesKey && k != FlagsKey ==> Get(d.fields, k) == Get(doc.fields, k))
  {
  }

  /** The tab: its two tables and the window it edits. */
  class Tab {
    var gates: seq<GateRow>
    var flags: seq<FlagRow>
    const window: ConfigWindow

    constructor(window: ConfigWindow)
      ensures this.window == window && gates == [] && flags == []
    {
      this.window := window;
      gates := [];
      flags := [];
    }

    /** `load_data`: fill both tables from the document, stopping where Python raises. */
    method LoadData(doc: Json)
      modifies this
      ensures gates == LoadedGates(doc, old(gates)) && flags == LoadedFlags(doc, old(flags))
    {
      if !doc.Obj? {
        return;
      }
      var gateSlot := GetOr(doc.fields, GatesKey, Obj([]));
      gates := [];
      if !gateSlot.Obj? {
        return;
      }
      var all := gateSlot.fields;
      var rows: seq<GateRow> := [];
      var i := 0;
      while i < |all|
        invariant 0 <= i <= |all| && rows == GateRows(all[..i])
      {
        rows := rows + [GateRow(Some(all[i].key), Some(Truthy(all[i].val)))];
        i := i + 1;
        assert all[..i] == all[..i - 1] + [all[i - 1]];
      }
      assert all[..i] == all;
      gates := rows;
      var flagSlot := GetOr(doc.fields, FlagsKey, Obj([]));
      flags := [];
      if !flagSlot.Obj? {
        return;
      }
      all := flagSlot.fields;
      var texts: seq<FlagRow> := [];
      i := 0;
      while i < |all|
        invariant 0 <= i <= |all| && texts == FlagRows(all[..i])
      {
        texts := texts + [FlagRow(Some(all[i].key), Some(Render(all[i].val)))];
        i := i + 1;
        assert all[..i] == all[..i - 1] + [all[i - 1]];
      }
      assert all[..i] == all;
      flags := texts;
    }

    /** `toggle_statsig_feature(row, col)`. */
    method ToggleGate(row: int, col: int)
      modifies this
      ensures gates == Toggled(old(gates), row, col) && flags == old(flags)
      ensures |gates| == |old(gates)|
      ensures forall i :: 0 <= i < |gates| && i != row ==> gates[i] == old(gates)[i]
      ensures col == 1 && 0 <= row < |gates| && old(gates)[row].checked.Some? ==>
        gates[row].name == old(gates)[row].name && gates[row].checked == Some(!old(gates)[row].checked.value)
      ensures !(col == 1 && 0 <= row < |gates| && old(gates)[row].checked.Some?) ==> gates == old(gates)
    {
      if col == 1 && 0 <= row < |gates| && gates[row].checked.Some? {
        var current := gates[row].checked.value;
        gates := gates[row := gates[row].(checked := Some(!current))];
      }
    }

    /** `save_features`: fold both tables into dicts, store them, save. */
    method SaveFeatures() returns (r: Result<bool, EditError>)
      modifies window, window.fs
      ensures window.Applied(old(SaveFeaturesTo(window.doc, gates, flags)), r)
    {
      var doc := window.GetConfigData();
      var saved: seq<Entry<Json>> := [];
      var i := 0;
      while i < |gates|
        invariant 0 <= i <= |gates| && saved == FromPairs(GatePairs(gates)[..i])
        invariant unchanged(window) && unchanged(window.fs)
      {
        FromPairsStep(GatePairs(gates), i);
        var row := gates[i];
        if row.name.Some? && row.checked.Some? {
          saved := Put(saved, row.name.value, Bool(row.checked.value));
        }
        i := i + 1;
      }
      assert GatePairs(gates)[..i] == GatePairs(gates);
      if !doc.Obj? {
        return Err(WrongShape);
      }
      doc := SetKey(doc, GatesKey, Obj(saved));
      saved := [];
      i := 0;
      while i < |flags|
        invariant 0 <= i <= |flags| && saved == FromPairs(FlagPairs(flags)[..i])
        invariant unchanged(window) && unchanged(window.fs)
      {
        FromPairsStep(FlagPairs(flags), i);
        var row := flags[i];
        if row.name.Some? && row.text.Some? {
          saved := Put(saved, row.name.value, Coerce(row.text.value));
        }
        i := i + 1;
      }
      assert FlagPairs(flags)[..i] == FlagPairs(flags);
      doc := SetKey(doc, FlagsKey, Obj(saved));
      r := window.Commit(doc);
    }
  }
}
