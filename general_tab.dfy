/**
 * The general settings tab: the `autoUpdates` check box, which it saves,
 * and read-only labels for the install method, the model migrations and
 * the official marketplace.
 */
module GeneralTab {
  import opened Wrappers
  import opened Dict
  import opened JsonValue
  import opened MainWindow

  const AutoUpdatesKey := "autoUpdates"
  const Unknown := "未知"
  const Done := "✓ 已完成"
  const NotDone := "✗ 未完成"
  const Yes := "是"
  const No := "否"

  /** What `load_data` puts on screen. */
  datatype GeneralView = GeneralView(
    autoUpdates: bool, installMethod: string,
    sonnet: string, opus: string, thinking: string,
    attempted: string, installed: string)

  /** A flag read with `.get(key, False)`, as Python tests it. */
  predicate Flag(doc: seq<Entry<Json>>, key: string) {
    Truthy(GetOr(doc, key, Bool(false)))
  }

  /** A migration label: done exactly when the flag is truthy. */
  function MigrationLabel(done: bool): string {
    if done then Done else NotDone
  }

  /** A marketplace label: yes exactly when the flag is truthy. */
  function YesNo(b: bool): string {
    if b then Yes else No
  }

  /**
   * `load_data(doc)`. None where Python raises: a document that is not a
   * dict, an `autoUpdates` that is not a boolean or an `installMethod`
   * that is not text (the check box and the label accept nothing else).
   */
  function ViewOf(doc: Json): (r: Option<GeneralView>)
    ensures r.Some? <==>
      && doc.Obj?
      && GetOr(doc.fields, AutoUpdatesKey, Bool(false)).Bool?
      && GetOr(doc.fields, "installMethod", Str(Unknown)).Str?
  {
    if !doc.Obj? then None
    else
      var auto := GetOr(doc.fields, AutoUpdatesKey, Bool(false));
      var install := GetOr(doc.fields, "installMethod", Str(Unknown));
      if !auto.Bool? || !install.Str? then None
      else Some(GeneralView(
        auto.b, install.s,
        MigrationLabel(Flag(doc.fields, "sonnet45MigrationComplete")),
        MigrationLabel(Flag(doc.fields, "opus45MigrationComplete")),
        MigrationLabel(Flag(doc.fields, "thinkingMigrationComplete")),
        YesNo(Flag(doc.fields, "officialMarketplaceAutoInstallAttempted")),
        YesNo(Flag(doc.fields, "officialMarketplaceAutoInstalled"))))
  }

  /** Missing settings show as their defaults: unchecked, an unknown install method, nothing done. */
  lemma MissingSettingsDefaults(doc: Json)
    requires doc.Obj? && Keys(doc.fields) == []
    ensures ViewOf(doc) == Some(GeneralView(false, Unknown, NotDone, NotDone, NotDone, No, No))
  {
    assert Get(doc.fields, AutoUpdatesKey) == None;
  }

  /** Each label reads the flag both ways: done (or yes) exactly when the flag is truthy. */
  lemma LabelsFollowFlags(doc: Json)
    requires ViewOf(doc).Some?
    ensures var v := ViewOf(doc).value;
      && (v.sonnet == Done <==> Flag(doc.fields, "sonnet45MigrationComplete"))
      && (v.opus == Done <==> Flag(doc.fields, "opus45MigrationComplete"))
      && (v.thinking == Done <==> Flag(doc.fields, "thinkingMigrationComplete"))
      && (v.attempted == Yes <==> Flag(doc.fields, "officialMarketplaceAutoInstallAttempted"))
      && (v.installed == Yes <==> Flag(doc.fields, "officialMarketplaceAutoInstalled"))
      && v.sonnet in {Done, NotDone} && v.attempted in {Yes, No}
  {
  }

  /** `save_settings` on the document: `autoUpdates` takes the check box state. */
  function SaveSettingsTo(doc: Json, checked: bool): (r: Result<Json, EditError>)
    ensures r.Ok? <==> doc.Obj?
  {
    if doc.Obj? then Ok(SetKey(doc, AutoUpdatesKey, Bool(checked))) else Err(WrongShape)
  }

  /**
   * Saving changes `autoUpdates` alone, and the tab then shows the saved
   * state with every other label as before.
   */
  lemma SaveThenShow(doc: Json, checked: bool)
    requires ViewOf(doc).Some?
    ensures var d := SaveSettingsTo(doc, checked).value;
      && OnlyKeyChanged(doc, d, AutoUpdatesKey)
      && Get(d.fields, AutoUpdatesKey) == Some(Bool(checked))
      && ViewOf(d) == Some(ViewOf(doc).value.(autoUpdates := checked))
  {
    var d := SaveSettingsTo(doc, checked).value;
    ViewOfOtherKeys(doc, d);
  }

  /** Two documents that differ at most in `autoUpdates` show the same labels besides the check box. */
  lemma ViewOfOtherKeys(doc: Json, d: Json)
    requires ViewOf(doc).Some? && OnlyKeyChanged(doc, d, AutoUpdatesKey)
    requires GetOr(d.fields, AutoUpdatesKey, Bool(false)).Bool?
    ensures ViewOf(d) == Some(ViewOf(doc).value.(autoUpdates := GetOr(d.fields, AutoUpdatesKey, Bool(false)).b))
  {
    assert forall k :: k != AutoUpdatesKey ==> GetOr(d.fields, k, Bool(false)) == GetOr(doc.fields, k, Bool(false));
    assert GetOr(d.fields, "installMethod", Str(Unknown)) == GetOr(doc.fields, "installMethod", Str(Unknown));
  }

  /** `save_settings`. */
  method SaveSettings(w: ConfigWindow, checked: bool) returns (r: Result<bool, EditError>)
    modifies w, w.fs
    ensures w.Applied(old(SaveSettingsTo(w.doc, checked)), r)
  {
    var doc := w.GetConfigData();
    if !doc.Obj? {
      return Err(WrongShape);
    }
    r := w.Commit(SetKey(doc, AutoUpdatesKey, Bool(checked)));
  }
}
