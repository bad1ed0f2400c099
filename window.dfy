/**
 * The main window: it owns the in-memory settings document, loads it from
 * `~/.claude.json` and saves it back, copying the previous file to the
 * rolling `.json.bak` backup first.
 */
module MainWindow {
  import opened Wrappers
  import opened JsonValue
  import opened Files

  datatype LoadError = ReadFailed(io: IoError) | ParseFailed(message: string)

  /**
   * What `load_config` reads: `{}` when the file is absent, otherwise the
   * parsed content, or why reading or parsing failed.
   */
  function LoadOf(files: map<Path, string>, failing: set<Path>, codec: Codec, path: Path): (r: Result<Json, LoadError>)
    ensures path !in files ==> r == Ok(Obj([]))
    ensures path in files && path in failing ==> r == Err(ReadFailed(Denied))
    ensures path in files && path !in failing ==>
      (r.Ok? <==> codec.load(files[path]).Ok?) && (r.Ok? ==> r.value == codec.load(files[path]).value)
  {
    if path !in files then Ok(Obj([]))
    else match ReadOf(files, failing, path)
      case Err(e) => Err(ReadFailed(e))
      case Ok(text) =>
        match codec.load(text)
        case Err(m) => Err(ParseFailed(m))
        case Ok(v) => Ok(v)
  }

  /** The document after `load_config`: a failed read or parse keeps the previous one. */
  function LoadedDoc(previous: Json, files: map<Path, string>, failing: set<Path>, codec: Codec, path: Path): (r: Json)
    ensures path !in files ==> r == Obj([])
    ensures path in files && (path in failing || codec.load(files[path]).Err?) ==> r == previous
    ensures path in files && path !in failing && codec.load(files[path]).Ok? ==> r == codec.load(files[path]).value
  {
    match LoadOf(files, failing, codec, path)
    case Ok(v) => v
    case Err(_) => previous
  }

  /**
   * Why an edit of the document did not happen: a slot holds the wrong kind
   * of value (Python raises), the named entry is absent, the value is already
   * there, the user cancelled a picker, or edited text is not JSON.
   */
  datatype EditError = WrongShape | NotFound | AlreadyPresent | Cancelled | Malformed(message: string)

  /** Files after an attempt to save, and whether the attempt got through. */
  datatype Saved = Saved(files: map<Path, string>, ok: bool)

  /**
   * `save_config_to_file` on the file system: copy an existing settings file
   * to the backup, then write the new text; a failed copy stops before the write.
   */
  function SaveOf(files: map<Path, string>, failing: set<Path>, path: Path, text: string): (s: Saved)
    requires FileName(path) != ""
    ensures s.ok <==> path !in failing && (path in files ==> BackupPath(path) !in failing)
    ensures s.ok ==> path in s.files && s.files[path] == text
    ensures forall p :: p != path && p != BackupPath(path) ==> (p in s.files <==> p in files)
    ensures forall p :: p in files && p != path && p != BackupPath(path) ==> s.files[p] == files[p]
  {
    var afterBackup :=
      if path in files then CopyOf(files, failing, path, BackupPath(path)) else Some(files);
    match afterBackup
    case None => Saved(files, false)
    case Some(f1) =>
      match WriteOf(f1, failing, path, text)
      case None => Saved(f1, false)
      case Some(f2) => Saved(f2, true)
  }

  /** A missing settings file loads as the empty document. */
  lemma LoadMissingIsEmpty(previous: Json, files: map<Path, string>, failing: set<Path>, codec: Codec, path: Path)
    requires path !in files
    ensures LoadedDoc(previous, files, failing, codec, path) == Obj([])
  {
  }

  /** A settings file that cannot be read or parsed leaves the document as it was. */
  lemma LoadFailureKeepsDoc(previous: Json, files: map<Path, string>, failing: set<Path>, codec: Codec, path: Path)
    requires path in files
    requires path in failing || codec.load(files[path]).Err?
    ensures LoadedDoc(previous, files, failing, codec, path) == previous
  {
  }

  /** A save that gets through leaves the old file in the backup and the new text in the file. */
  lemma SaveBacksUpThenWrites(files: map<Path, string>, failing: set<Path>, path: Path, text: string)
    requires FileName(path) != "" && BackupPath(path) != path
    ensures var s := SaveOf(files, failing, path, text);
      && (s.ok <==> path !in failing && (path in files ==> BackupPath(path) !in failing))
      && (s.ok ==> path in s.files && s.files[path] == text)
      && (s.ok && path in files ==> BackupPath(path) in s.files && s.files[BackupPath(path)] == files[path])
  {
  }

  /** Without a settings file there is nothing to back up: the backup slot is left alone. */
  lemma SaveWithoutFileMakesNoBackup(files: map<Path, string>, failing: set<Path>, path: Path, text: string)
    requires FileName(path) != "" && BackupPath(path) != path
    requires path !in files
    ensures var s := SaveOf(files, failing, path, text);
      && (BackupPath(path) in s.files <==> BackupPath(path) in files)
      && (BackupPath(path) in files ==> s.files[BackupPath(path)] == files[BackupPath(path)])
  {
  }

  /** A backup that fails stops the save before the settings file is touched. */
  lemma FailedBackupWritesNothing(files: map<Path, string>, failing: set<Path>, path: Path, text: string)
    requires FileName(path) != ""
    requires path in files && (path in failing || BackupPath(path) in failing)
    ensures SaveOf(files, failing, path, text) == Saved(files, false)
  {
  }

  /** A save only ever touches the settings file and its backup. */
  lemma SaveTouchesOnlyFileAndBackup(files: map<Path, string>, failing: set<Path>, path: Path, text: string, other: Path)
    requires FileName(path) != ""
    requires other != path && other != BackupPath(path)
    ensures var s := SaveOf(files, failing, path, text);
      (other in s.files <==> other in files) && (other in files ==> s.files[other] == files[other])
  {
  }

  /** What was saved loads back, when the codec round-trips. */
  lemma SaveThenLoad(previous: Json, doc: Json, files: map<Path, string>, failing: set<Path>, codec: Codec, path: Path)
    requires Lawful(codec)
    requires FileName(path) != ""
    requires SaveOf(files, failing, path, codec.dump(doc)).ok
    ensures LoadedDoc(previous, SaveOf(files, failing, path, codec.dump(doc)).files, failing, codec, path) == doc
  {
    assert codec.load(codec.dump(doc)) == Ok(doc);
  }

  /** `ClaudeConfigGUI`: the document, where it lives and the `json` codec. */
  class ConfigWindow {
    var doc: Json
    const home: Path
    const fs: FileSystem
    const codec: Codec

    /** The settings file, `~/.claude.json`. */
    function ConfigFile(): (p: Path)
      ensures FileName(p) == ".claude.json"
    {
      ConfigBackupPaths(home, "");
      ConfigPath(home)
    }

    /** Starts from `{}` and loads the settings file. */
    constructor(home: Path, fs: FileSystem, codec: Codec)
      ensures this.home == home && this.fs == fs && this.codec == codec
      ensures doc == LoadedDoc(Obj([]), fs.files, fs.failing, codec, ConfigPath(home))
    {
      this.home := home;
      this.fs := fs;
      this.codec := codec;
      doc := Obj([]);
      new;
      var _ := LoadConfig();
    }

    /** `load_config`. */
    method LoadConfig() returns (r: Result<(), LoadError>)
      modifies this
      ensures doc == LoadedDoc(old(doc), fs.files, fs.failing, codec, ConfigFile())
      ensures r.Ok? <==> LoadOf(fs.files, fs.failing, codec, ConfigFile()).Ok?
    {
      var path := ConfigFile();
      if !fs.Exists(path) {
        doc := Obj([]);
        return Ok(());
      }
      var text := fs.Read(path);
      if text.Err? {
        return Err(ReadFailed(text.error));
      }
      var parsed := codec.load(text.value);
      if parsed.Err? {
        return Err(ParseFailed(parsed.error));
      }
      doc := parsed.value;
      r := Ok(());
    }

    /** `save_config_to_file`: back up the file if it exists, then write the document. */
    method SaveConfigToFile() returns (ok: bool)
      modifies fs
      ensures Saved(fs.files, ok) == SaveOf(old(fs.files), fs.failing, ConfigFile(), codec.dump(doc))
    {
      var path := ConfigFile();
      if fs.Exists(path) {
        ok := fs.Copy(path, BackupPath(path));
        if !ok {
          return;
        }
      }
      ok := fs.Write(path, codec.dump(doc));
    }

    /**
     * How a tab applies an edit: on failure nothing changes; on success the
     * document becomes the edited one and is saved, `r` telling whether the
     * save got through.
     */
    twostate predicate Applied(edit: Result<Json, EditError>, new r: Result<bool, EditError>)
      reads this, fs
    {
      match edit
      case Err(e) => r == Err(e) && doc == old(doc) && fs.files == old(fs.files)
      case Ok(d) =>
        && doc == d && r.Ok?
        && Saved(fs.files, r.value) == SaveOf(old(fs.files), fs.failing, ConfigFile(), codec.dump(d))
    }

    /** `set_config_data(d)` then `save_config_to_file()`, as every tab does after an edit. */
    method Commit(d: Json) returns (r: Result<bool, EditError>)
      modifies this, fs
      ensures Applied(Ok(d), r)
    {
      SetConfigData(d);
      var ok := SaveConfigToFile();
      r := Ok(ok);
    }

    /** `get_config_data`. */
    function GetConfigData(): (d: Json)
      reads this
      ensures d == doc
    {
      doc
    }

    /** `set_config_data`: the document is replaced wholesale. */
    method SetConfigData(data: Json)
      modifies this
      ensures doc == data && GetConfigData() == data
    {
      doc := data;
    }
  }
}
