/**
 * `main_old.py`: the single-window version the tabs were later split out of.
 * Its edits, its save and its dialogs behave as the tabs' do, with three
 * differences modelled here: the server dialog's OK button accepts without
 * checking, so `get_server_data` itself raises `ValueError` on an empty
 * name or command; import and reset end by reloading the settings file
 * instead of refreshing the views from the document in memory; and saving
 * the raw text leaves the text editor as it was.
 */
module LegacyWindow {
  import opened Wrappers
  import opened Dict
  import opened PyBuiltins
  import opened JsonValue
  import opened Files
  import opened MainWindow
  import opened ServerDialog
  import opened ServersTab
  import opened UserInfoTab
  import ProjectsTab
  import GeneralTab
  import FeaturesTab
  import RawConfigTab

  /** The messages of the two `ValueError`s `get_server_data` raises. */
  const NameRequired := "服务器名称不能为空"
  const CommandRequired := "命令不能为空"

  /**
   * The old `get_server_data`: the name is checked before the command, and
   * a form that passes gives the same data as the dialog of the tabs.
   */
  function ServerDataOrError(f: ServerForm, shlex: Tokenizer): (r: Result<ServerData, string>)
    ensures r.Ok? <==> ValidateForm(f).Ok?
    ensures r == Err(NameRequired) <==> ValidateForm(f) == Err(EmptyName)
    ensures r == Err(CommandRequired) <==> ValidateForm(f) == Err(EmptyCommand)
    ensures r.Ok? ==> r.value == ServerDataOf(f, shlex)
  {
    if Strip(f.name) == "" then Err(NameRequired)
    else if Strip(f.command) == "" then Err(CommandRequired)
    else Ok(ServerData(Strip(f.name), Strip(f.command), ParseArgs(f.args, shlex), EnvVars(f.env)))
  }

  /** What the old dialog hands back has a non-empty name and command with nothing left to strip. */
  lemma ServerDataStripped(f: ServerForm, shlex: Tokenizer)
    requires ServerDataOrError(f, shlex).Ok?
    ensures var d := ServerDataOrError(f, shlex).value;
      && d.name != "" && Strip(d.name) == d.name
      && d.command != "" && Strip(d.command) == d.command
  {
    StripIdempotent(f.name);
    StripIdempotent(f.command);
  }

  /** `MCPServerDialog.get_server_data` of the old window. */
  method GetServerData(f: ServerForm, shlex: Tokenizer) returns (r: Result<ServerData, string>)
    ensures r == ServerDataOrError(f, shlex)
  {
    if Strip(f.name) == "" {
      return Err(NameRequired);
    }
    if Strip(f.command) == "" {
      return Err(CommandRequired);
    }
    var d := ServerDialog.GetServerData(f, shlex);
    r := Ok(d);
  }

  /**
   * `add_mcp_server`: the data is read before the server slot is looked at,
   * so a `ValueError` leaves the document as it was.
   */
  function AddMcpServerTo(doc: Json, f: ServerForm, shlex: Tokenizer): (r: Result<Json, EditError>)
    ensures r.Ok? <==> ValidateForm(f).Ok? && Servers(doc).Some?
    ensures ValidateForm(f).Err? ==> r.Err? && r.error.Malformed?
  {
    match ServerDataOrError(f, shlex)
    case Err(m) => Err(Malformed(m))
    case Ok(data) => AddServerTo(doc, data)
  }

  /**
   * `edit_mcp_server`: a server that is not there is caught before the
   * dialog opens, an entry the dialog cannot load raises while it opens, and
   * a `ValueError` after it closes leaves the document as it was.
   */
  function EditMcpServerIn(doc: Json, oldName: string, f: ServerForm, shlex: Tokenizer): (r: Result<Json, EditError>)
    ensures r.Ok? <==>
      && Servers(doc).Some? && oldName in Keys(Servers(doc).value)
      && LoadForm(oldName, ServerOf(doc, oldName).value).Some? && ValidateForm(f).Ok?
    ensures !(Servers(doc).Some? && oldName in Keys(Servers(doc).value)
              && LoadForm(oldName, ServerOf(doc, oldName).value).Some?) ==>
      r.Err? && !r.error.Malformed?
  {
    match Servers(doc)
    case None => Err(WrongShape)
    case Some(servers) =>
      if oldName !in Keys(servers) then Err(EditError.NotFound)
      else if LoadForm(oldName, Get(servers, oldName).value).None? then Err(WrongShape)
      else
        match ServerDataOrError(f, shlex)
        case Err(m) => Err(Malformed(m))
        case Ok(data) => EditServerIn(doc, oldName, data)
  }

  /**
   * The old window and the tabs agree: on a form the new dialog accepts,
   * adding and editing make the same document; on a form it would refuse,
   * the old window raises and changes nothing.
   */
  lemma ServerEditsAgree(doc: Json, oldName: string, f: ServerForm, shlex: Tokenizer)
    ensures ValidateForm(f).Ok? ==> AddMcpServerTo(doc, f, shlex) == AddServerTo(doc, ServerDataOf(f, shlex))
    ensures ValidateForm(f).Ok? ==>
      EditMcpServerIn(doc, oldName, f, shlex) == EditServerIn(doc, oldName, ServerDataOf(f, shlex))
    ensures ValidateForm(f).Err? ==> AddMcpServerTo(doc, f, shlex).Err? && EditMcpServerIn(doc, oldName, f, shlex).Err?
  {
    if ValidateForm(f).Ok? {
      AddAgrees(doc, f, shlex);
      EditAgrees(doc, oldName, f, shlex);
    }
  }

  /** On a form the new dialog accepts, adding through the old window is adding through the tab. */
  lemma AddAgrees(doc: Json, f: ServerForm, shlex: Tokenizer)
    requires ValidateForm(f).Ok?
    ensures AddMcpServerTo(doc, f, shlex) == AddServerTo(doc, ServerDataOf(f, shlex))
  {
    assert ServerDataOrError(f, shlex) == Ok(ServerDataOf(f, shlex));
  }

  /** On a form the new dialog accepts, editing through the old window is editing through the tab. */
  lemma EditAgrees(doc: Json, oldName: string, f: ServerForm, shlex: Tokenizer)
    requires ValidateForm(f).Ok?
    ensures EditMcpServerIn(doc, oldName, f, shlex) == EditServerIn(doc, oldName, ServerDataOf(f, shlex))
  {
    assert ServerDataOrError(f, shlex) == Ok(ServerDataOf(f, shlex));
  }

  /** `add_mcp_server`, once the dialog was accepted with form `f`. */
  method AddMcpServer(w: ConfigWindow, f: ServerForm, shlex: Tokenizer) returns (r: Result<bool, EditError>)
    modifies w, w.fs
    ensures w.Applied(old(AddMcpServerTo(w.doc, f, shlex)), r)
  {
    var data := GetServerData(f, shlex);
    if data.Err? {
      return Err(Malformed(data.error));
    }
    r := ServersTab.AddServer(w, data.value);
  }

  /** `edit_mcp_server` on the selected server, once the dialog was accepted with form `f`. */
  method EditMcpServer(w: ConfigWindow, oldName: string, f: ServerForm, shlex: Tokenizer) returns (r: Result<bool, EditError>)
    modifies w, w.fs
    ensures w.Applied(old(EditMcpServerIn(w.doc, oldName, f, shlex)), r)
  {
    var servers := Servers(w.GetConfigData());
    if servers.None? {
      return Err(WrongShape);
    }
    if oldName !in Keys(servers.value) {
      return Err(EditError.NotFound);
    }
    var form := ServerDialog.LoadData(oldName, Get(servers.value, oldName).value);
    if form.None? {
      return Err(WrongShape);
    }
    var data := GetServerData(f, shlex);
    if data.Err? {
      return Err(Malformed(data.error));
    }
    r := ServersTab.EditServer(w, oldName, data.value);
  }

  /** `delete_mcp_server` on the selected server, once confirmed: the same edit as the tab's. */
  method DeleteMcpServer(w: ConfigWindow, name: string) returns (r: Result<bool, EditError>)
    modifies w, w.fs
    ensures w.Applied(old(DeleteServerFrom(w.doc, name)), r)
  {
    r := ServersTab.DeleteServer(w, name);
  }

  /** `add_repo` once the old repository dialog (which validates as the new one does) accepted `repo`. */
  method AddRepo(w: ConfigWindow, repo: string) returns (r: Result<bool, EditError>)
    modifies w, w.fs
    ensures w.Applied(old(ProjectsTab.AddRepoTo(w.doc, repo)), r)
  {
    r := ProjectsTab.AddRepo(w, repo);
  }

  /** `delete_repo` on the selected repository, once confirmed. */
  method DeleteRepo(w: ConfigWindow, repo: string) returns (r: Result<bool, EditError>)
    modifies w, w.fs
    ensures w.Applied(old(ProjectsTab.DeleteRepoFrom(w.doc, repo)), r)
  {
    r := ProjectsTab.DeleteRepo(w, repo);
  }

  /** `add_path` with the folder the picker returned (`""` when cancelled). */
  method AddPath(w: ConfigWindow, repo: string, path: string) returns (r: Result<bool, EditError>)
    modifies w, w.fs
    ensures w.Applied(old(ProjectsTab.AddPathTo(w.doc, repo, path)), r)
  {
    r := ProjectsTab.AddPath(w, repo, path);
  }

  /** `remove_path` on the selected repository and folder, once confirmed. */
  method RemovePath(w: ConfigWindow, repo: string, path: string) returns (r: Result<bool, EditError>)
    modifies w, w.fs
    ensures w.Applied(old(ProjectsTab.RemovePathFrom(w.doc, repo, path)), r)
  {
    r := ProjectsTab.RemovePath(w, repo, path);
  }

  /** `save_general_settings`. */
  method SaveGeneralSettings(w: ConfigWindow, checked: bool) returns (r: Result<bool, EditError>)
    modifies w, w.fs
    ensures w.Applied(old(GeneralTab.SaveSettingsTo(w.doc, checked)), r)
  {
    r := GeneralTab.SaveSettings(w, checked);
  }

  /** `save_experimental_features`, over the window's two feature tables. */
  method SaveExperimentalFeatures(tables: FeaturesTab.Tab) returns (r: Result<bool, EditError>)
    modifies tables.window, tables.window.fs
    ensures tables.window.Applied(old(FeaturesTab.SaveFeaturesTo(tables.window.doc, tables.gates, tables.flags)), r)
  {
    r := tables.SaveFeatures();
  }

  /**
   * The old `save_raw_config`: the same parse, replace and save as the tab's,
   * but the views it refreshes afterwards do not include the text editor,
   * which keeps the text as the user typed it.
   */
  method SaveRawConfig(editor: RawConfigTab.Tab) returns (r: Result<bool, EditError>)
    modifies editor.window, editor.window.fs
    ensures editor.window.Applied(old(RawConfigTab.ParsedEdit(editor.window.codec, editor.text)), r)
    ensures editor.text == old(editor.text)
  {
    var edit := RawConfigTab.ParsedEdit(editor.window.codec, editor.text);
    if edit.Err? {
      return Err(edit.error);
    }
    r := editor.window.Commit(edit.value);
  }

  /** After a save that got through, the settings file is read back into the document. */
  function Reloaded(o: Outcome, failing: set<Path>, codec: Codec, home: Path): (r: Outcome)
    ensures r.files == o.files && r.result == o.result
    ensures o.result != Ok(true) ==> r == o
    ensures Lawful(codec) && ConfigPath(home) in o.files && o.files[ConfigPath(home)] == codec.dump(o.doc) ==> r == o
  {
    if o.result == Ok(true) then o.(doc := LoadedDoc(o.doc, o.files, failing, codec, ConfigPath(home))) else o
  }

  /** The old `import_config`: import, then `load_config`. */
  function LegacyImportOf(doc: Json, files: map<Path, string>, failing: set<Path>, codec: Codec, home: Path, src: Path): (r: Outcome)
    ensures r.files == ImportOf(doc, files, failing, codec, home, src).files
    ensures r.result == ImportOf(doc, files, failing, codec, home, src).result
    ensures r.result.Err? ==> r.doc == doc && r.files == files
  {
    Reloaded(ImportOf(doc, files, failing, codec, home, src), failing, codec, home)
  }

  /** The old `reset_config`: reset, then `load_config`. */
  function LegacyResetOf(doc: Json, files: map<Path, string>, failing: set<Path>, codec: Codec, home: Path, stamp: string): (r: Outcome)
    ensures r.files == ResetOf(doc, files, failing, codec, home, stamp).files
    ensures r.result == ResetOf(doc, files, failing, codec, home, stamp).result
    ensures r.result.Err? ==> r == Outcome(doc, files, Err(BackupFailed))
  {
    Reloaded(ResetOf(doc, files, failing, codec, home, stamp), failing, codec, home)
  }

  /** Reading back what a whole-document replacement just saved gives the same document, when the codec round-trips. */
  lemma ReloadAfterReplace(doc: Json, files: map<Path, string>, failing: set<Path>, codec: Codec, home: Path,
                           backup: Path, d: Json)
    requires Lawful(codec)
    ensures var o := ReplaceOf(doc, files, failing, codec, home, backup, d);
      Reloaded(o, failing, codec, home) == o
  {
    ConfigBackupPaths(home, "");
    var config := ConfigPath(home);
    var backedUp := if config in files then CopyOf(files, failing, config, backup) else Some(files);
    if backedUp.Some? && SaveOf(backedUp.value, failing, config, codec.dump(d)).ok {
      SaveThenLoad(d, d, backedUp.value, failing, codec, config);
    }
  }

  /**
   * With a codec that round-trips, the reload the old window does after an
   * import or a reset changes nothing: both end as the tabs' versions do.
   */
  lemma ReloadIsRedundant(doc: Json, files: map<Path, string>, failing: set<Path>, codec: Codec, home: Path,
                          src: Path, stamp: string)
    requires Lawful(codec)
    ensures LegacyImportOf(doc, files, failing, codec, home, src) == ImportOf(doc, files, failing, codec, home, src)
    ensures LegacyResetOf(doc, files, failing, codec, home, stamp) == ResetOf(doc, files, failing, codec, home, stamp)
  {
    ConfigBackupPaths(home, "");
    ConfigBackupPaths(home, stamp);
    var text := ReadOf(files, failing, src);
    if text.Ok? && codec.load(text.value).Ok? {
      ReloadAfterReplace(doc, files, failing, codec, home, BackupPath(ConfigPath(home)), codec.load(text.value).value);
    }
    ReloadAfterReplace(doc, files, failing, codec, home, StampedBackupPath(ConfigPath(home), stamp), DefaultConfig());
  }

  /** The old `import_config` from the chosen file, once confirmed. */
  method ImportConfig(w: ConfigWindow, src: Path) returns (r: Result<bool, ReplaceError>)
    modifies w, w.fs
    ensures Outcome(w.doc, w.fs.files, r) == old(LegacyImportOf(w.doc, w.fs.files, w.fs.failing, w.codec, w.home, src))
  {
    r := Import(w, src);
    if r == Ok(true) {
      var _ := w.LoadConfig();
    }
  }

  /** The old `reset_config` at the time stamp `stamp`, once confirmed. */
  method ResetConfig(w: ConfigWindow, stamp: string) returns (r: Result<bool, ReplaceError>)
    modifies w, w.fs
    ensures Outcome(w.doc, w.fs.files, r) == old(LegacyResetOf(w.doc, w.fs.files, w.fs.failing, w.codec, w.home, stamp))
  {
    r := Reset(w, stamp);
    if r == Ok(true) {
      var _ := w.LoadConfig();
    }
  }
}
