/**
 * The user info tab: read-only labels for the user id and the first start
 * time with the time since, and the whole-document operations: export to a
 * file, import from a file, reset to a minimal document.
 */
module UserInfoTab {
  import opened Wrappers
  import opened Dict
  import opened PyBuiltins
  import opened JsonValue
  import opened Files
  import opened MainWindow
  import GeneralTab
  import ProjectsTab
  import ServersTab

  const Unknown := "未知"

  // ---------------------------------------------------------------- labels

  /** Microseconds in a day and in an hour, the units of `timedelta`. */
  const DayMicros := 86_400_000_000
  const HourMicros := 3_600_000_000

  /**
   * The `(days, hours)` a `timedelta` of `d` microseconds shows: `days` is
   * the floor of whole days, `seconds` the rest in `[0, 86400)`, and the
   * hours are `seconds // 3600`.
   */
  function DaysHours(d: int): (r: (int, int))
    ensures 0 <= r.1 < 24
    ensures r.0 >= 0 <==> d >= 0
  {
    var days := d / DayMicros;
    var seconds := (d % DayMicros) / 1_000_000;
    (days, seconds / 3600)
  }

  /**
   * The split is exact: the hours lie in 0..23, and the duration lies in the
   * hour the two numbers name, also for a start time in the future.
   */
  lemma DaysHoursBounds(d: int)
    ensures var (days, hours) := DaysHours(d);
      && 0 <= hours < 24
      && days * DayMicros + hours * HourMicros <= d < days * DayMicros + (hours + 1) * HourMicros
  {
    var days := d / DayMicros;
    var rest := d % DayMicros;
    assert d == days * DayMicros + rest && 0 <= rest < DayMicros;
    var seconds := rest / 1_000_000;
    var hours := seconds / 3600;
    assert rest == seconds * 1_000_000 + rest % 1_000_000;
    assert seconds == hours * 3600 + seconds % 3600;
    assert 0 <= seconds < 86400;
    assert hours * HourMicros <= rest < (hours + 1) * HourMicros;
  }

  /** `s.replace('Z', '+00:00')`: every `Z` is replaced. */
  function ReplaceZ(s: string): (r: string)
    ensures 'Z' !in r
    ensures 'Z' !in s ==> r == s
  {
    if |s| == 0 then ""
    else (if s[0] == 'Z' then "+00:00" else [s[0]]) + ReplaceZ(s[1..])
  }

  /**
   * The clock and calendar `load_data` reads: `parse` is
   * `datetime.fromisoformat` (None where it raises), giving microseconds;
   * `format` is `strftime("%Y-%m-%d %H:%M:%S")` in local time; `now` is the current instant.
   */
  datatype Clock = Clock(parse: string -> Option<int>, format: int -> string, now: int)

  /** The labels of the tab. */
  datatype UserView = UserView(userId: string, firstStart: string, usage: string)

  /** The usage label for a duration. */
  function UsageLabel(d: int): (r: string)
    ensures |r| > 0 && (r[0] == '-' <==> d < 0)
    ensures r != Unknown
  {
    var (days, hours) := DaysHours(d);
    IntToString(days) + " 天 " + IntToString(hours) + " 小时"
  }

  /** The first-start and usage labels: unknown for an empty or missing time, the raw text when it does not parse. */
  function TimeLabels(first: Json, clock: Clock): (r: Option<(string, string)>)
    ensures r.None? <==> Truthy(first) && !first.Str?
    ensures !Truthy(first) ==> r == Some((Unknown, Unknown))
    ensures r.Some? ==> (r.value.1 == Unknown <==> !first.Str? || first.s == "" || clock.parse(ReplaceZ(first.s)).None?)
    ensures r.Some? && first.Str? && first.s != "" && clock.parse(ReplaceZ(first.s)).None? ==> r.value.0 == first.s
  {
    if !Truthy(first) then Some((Unknown, Unknown))
    else if !first.Str? then None
    else match clock.parse(ReplaceZ(first.s))
      case None => Some((first.s, Unknown))
      case Some(t) => Some((clock.format(t), UsageLabel(clock.now - t)))
  }

  /**
   * `load_data(doc)`; None where Python raises (a document that is not a
   * dict, a user id or first start time that is not text).
   */
  function ViewOf(doc: Json, clock: Clock): (r: Option<UserView>)
    ensures r.None? <==>
      || !doc.Obj?
      || !GetOr(doc.fields, "userID", Str(Unknown)).Str?
      || (Truthy(GetOr(doc.fields, "firstStartTime", Str(""))) && !GetOr(doc.fields, "firstStartTime", Str("")).Str?)
    ensures r.Some? && "userID" !in Keys(doc.fields) ==> r.value.userId == Unknown
    ensures r.Some? && "userID" in Keys(doc.fields) ==> Get(doc.fields, "userID") == Some(Str(r.value.userId))
  {
    if !doc.Obj? then None
    else
      var id := GetOr(doc.fields, "userID", Str(Unknown));
      var times := TimeLabels(GetOr(doc.fields, "firstStartTime", Str("")), clock);
      if id.Str? && times.Some? then Some(UserView(id.s, times.value.0, times.value.1)) else None
  }

  /** A missing user id and a missing or empty first start time all show as unknown. */
  lemma MissingInfoIsUnknown(doc: Json, clock: Clock)
    requires doc.Obj?
    requires "userID" !in Keys(doc.fields)
    requires Get(doc.fields, "firstStartTime") in {None, Some(Str(""))}
    ensures ViewOf(doc, clock) == Some(UserView(Unknown, Unknown, Unknown))
  {
  }

  /** A first start time that parses shows the formatted time and whole days and hours since. */
  lemma ParsedStartShowsUsage(doc: Json, clock: Clock, t: int)
    requires doc.Obj? && "userID" !in Keys(doc.fields)
    requires var first := GetOr(doc.fields, "firstStartTime", Str(""));
      first.Str? && first.s != "" && clock.parse(ReplaceZ(first.s)) == Some(t)
    ensures ViewOf(doc, clock) == Some(UserView(Unknown, clock.format(t), UsageLabel(clock.now - t)))
  {
    var first := GetOr(doc.fields, "firstStartTime", Str(""));
    ParsedTimeLabels(first, clock, t);
    assert GetOr(doc.fields, "userID", Str(Unknown)) == Str(Unknown);
  }

  /** A non-empty start time that parses gives the formatted time and the usage since. */
  lemma ParsedTimeLabels(first: Json, clock: Clock, t: int)
    requires first.Str? && first.s != "" && clock.parse(ReplaceZ(first.s)) == Some(t)
    ensures TimeLabels(first, clock) == Some((clock.format(t), UsageLabel(clock.now - t)))
  {
  }

  // ------------------------------------------------------- whole documents

  /** Why an import or a reset did not replace the document. */
  datatype ReplaceError = CannotLoad(cause: LoadError) | BackupFailed

  /** The document, the files and the outcome after a whole-document operation. */
  datatype Outcome = Outcome(doc: Json, files: map<Path, string>, result: Result<bool, ReplaceError>)

  /** Replace the document by `d`: back the settings file up to `backup` when it exists, then save. */
  function ReplaceOf(doc: Json, files: map<Path, string>, failing: set<Path>, codec: Codec, home: Path,
                     backup: Path, d: Json): (o: Outcome)
    ensures o.result.Err? ==> o == Outcome(doc, files, Err(BackupFailed))
    ensures o.result.Ok? ==> o.doc == d
    ensures o.result == Ok(true) ==> ConfigPath(home) in o.files && o.files[ConfigPath(home)] == codec.dump(d)
  {
    ConfigBackupPaths(home, "");
    var config := ConfigPath(home);
    var backedUp := if config in files then CopyOf(files, failing, config, backup) else Some(files);
    match backedUp
    case None => Outcome(doc, files, Err(BackupFailed))
    case Some(f1) =>
      var s := SaveOf(f1, failing, config, codec.dump(d));
      Outcome(d, s.files, Ok(s.ok))
  }

  /** `import_config` from `src`: read and parse it, then replace the document, backing up to `.json.bak`. */
  function ImportOf(doc: Json, files: map<Path, string>, failing: set<Path>, codec: Codec, home: Path, src: Path): (o: Outcome)
    ensures o.result.Err? ==> o.doc == doc && o.files == files
    ensures o.result.Ok? ==> src in files && src !in failing && codec.load(files[src]).Ok? && o.doc == codec.load(files[src]).value
    ensures src in failing ==> o.result == Err(CannotLoad(ReadFailed(Denied)))
    ensures src !in files && src !in failing ==> o.result == Err(CannotLoad(ReadFailed(IoError.NotFound)))
  {
    ConfigBackupPaths(home, "");
    match ReadOf(files, failing, src)
    case Err(e) => Outcome(doc, files, Err(CannotLoad(ReadFailed(e))))
    case Ok(text) =>
      match codec.load(text)
      case Err(m) => Outcome(doc, files, Err(CannotLoad(ParseFailed(m))))
      case Ok(v) => ReplaceOf(doc, files, failing, codec, home, BackupPath(ConfigPath(home)), v)
  }

  /** The minimal document a reset leaves. */
  function DefaultConfig(): (r: Json)
    ensures r.Obj? && UniqueKeys(r.fields)
    ensures Keys(r.fields) == ["installMethod", "autoUpdates", "mcpServers", "githubRepoPaths"]
  {
    Obj([
      Entry("installMethod", Str("native")),
      Entry("autoUpdates", Bool(false)),
      Entry(ServersTab.ServersKey, Obj([])),
      Entry(ProjectsTab.ReposKey, Obj([]))])
  }

  /** `reset_config` with the time stamp `stamp`: back up to the stamped path, then replace the document. */
  function ResetOf(doc: Json, files: map<Path, string>, failing: set<Path>, codec: Codec, home: Path, stamp: string): (o: Outcome)
    ensures o.result.Err? ==> o == Outcome(doc, files, Err(BackupFailed))
    ensures o.result.Ok? ==> o.doc == DefaultConfig()
    ensures o.result == Ok(true) ==> ConfigPath(home) in o.files && o.files[ConfigPath(home)] == codec.dump(DefaultConfig())
  {
    ConfigBackupPaths(home, stamp);
    ReplaceOf(doc, files, failing, codec, home, StampedBackupPath(ConfigPath(home), stamp), DefaultConfig())
  }

  /**
   * The reset document holds exactly four settings, and every tab shows it
   * as empty: no servers, no repositories, updates off, installed natively.
   */
  lemma DefaultConfigShows(d: Json)
    requires d == DefaultConfig()
    ensures Keys(d.fields) == ["installMethod", "autoUpdates", "mcpServers", "githubRepoPaths"]
    ensures ServersTab.Servers(d) == Some([])
    ensures ProjectsTab.Repos(d) == Some([])
    ensures GeneralTab.ViewOf(d) ==
      Some(GeneralTab.GeneralView(false, "native", GeneralTab.NotDone, GeneralTab.NotDone, GeneralTab.NotDone,
        GeneralTab.No, GeneralTab.No))
  {
    DefaultConfigEntries(d);
  }

  /** What each key of the reset document holds. */
  lemma DefaultConfigEntries(d: Json)
    requires d == DefaultConfig()
    ensures Keys(d.fields) == ["installMethod", "autoUpdates", "mcpServers", "githubRepoPaths"]
    ensures Get(d.fields, "installMethod") == Some(Str("native"))
    ensures Get(d.fields, "autoUpdates") == Some(Bool(false))
    ensures Get(d.fields, "mcpServers") == Some(Obj([]))
    ensures Get(d.fields, "githubRepoPaths") == Some(Obj([]))
  {
    var f := d.fields;
    assert UniqueKeys(f);
    GetAt(f, 0);
    GetAt(f, 1);
    GetAt(f, 2);
    GetAt(f, 3);
  }

  /** An import whose file cannot be read or parsed, or whose backup fails, changes nothing. */
  lemma ImportFailureChangesNothing(doc: Json, files: map<Path, string>, failing: set<Path>, codec: Codec, home: Path, src: Path)
    requires ImportOf(doc, files, failing, codec, home, src).result.Err?
    ensures ImportOf(doc, files, failing, codec, home, src).doc == doc
    ensures ImportOf(doc, files, failing, codec, home, src).files == files
  {
  }

  /**
   * After an import that got through, the document is the imported value,
   * the settings file holds it and `.json.bak` holds the file from before.
   */
  lemma ImportBacksUpThenWrites(doc: Json, files: map<Path, string>, failing: set<Path>, codec: Codec, home: Path, src: Path)
    requires ImportOf(doc, files, failing, codec, home, src).result == Ok(true)
    ensures var o, config := ImportOf(doc, files, failing, codec, home, src), ConfigPath(home);
      && src in files && codec.load(files[src]).Ok?
      && o.doc == codec.load(files[src]).value
      && config in o.files && o.files[config] == codec.dump(o.doc)
      && (config in files ==> BackupPath(config) in o.files && o.files[BackupPath(config)] == files[config])
  {
    ConfigBackupPaths(home, "");
  }

  /**
   * A reset that got through leaves the default document in the file and
   * the previous file in the stamped backup; the save it ends with also
   * overwrites the rolling `.json.bak` with that previous file. Without a
   * settings file no stamped backup appears.
   */
  lemma ResetBacksUp(doc: Json, files: map<Path, string>, failing: set<Path>, codec: Codec, home: Path, stamp: string)
    requires ResetOf(doc, files, failing, codec, home, stamp).result == Ok(true)
    ensures var o, config := ResetOf(doc, files, failing, codec, home, stamp), ConfigPath(home);
      && o.doc == DefaultConfig()
      && config in o.files && o.files[config] == codec.dump(DefaultConfig())
      && (config in files ==>
            StampedBackupPath(config, stamp) in o.files && o.files[StampedBackupPath(config, stamp)] == files[config])
      && (config in files ==> BackupPath(config) in o.files && o.files[BackupPath(config)] == files[config])
      && (config !in files ==> (StampedBackupPath(config, stamp) in o.files <==> StampedBackupPath(config, stamp) in files))
  {
    ConfigBackupPaths(home, stamp);
  }

  /** A reset whose stamped backup fails changes nothing. */
  lemma FailedResetChangesNothing(doc: Json, files: map<Path, string>, failing: set<Path>, codec: Codec, home: Path, stamp: string)
    requires ResetOf(doc, files, failing, codec, home, stamp).result.Err?
    ensures ResetOf(doc, files, failing, codec, home, stamp) == Outcome(doc, files, Err(BackupFailed))
  {
  }

  /** `export_config` to `dst`: the document's text, written there; None when the write fails. */
  function ExportOf(doc: Json, files: map<Path, string>, failing: set<Path>, codec: Codec, dst: Path): (r: Option<map<Path, string>>)
    ensures r.Some? <==> dst !in failing
    ensures r.Some? ==> dst in r.value && r.value[dst] == codec.dump(doc)
    ensures r.Some? ==> forall p :: p in files && p != dst ==> p in r.value && r.value[p] == files[p]
  {
    WriteOf(files, failing, dst, codec.dump(doc))
  }

  /** Importing what was exported restores the document, when the codec round-trips. */
  lemma ExportThenImport(doc: Json, other: Json, files: map<Path, string>, failing: set<Path>, codec: Codec, home: Path, dst: Path)
    requires Lawful(codec)
    requires ExportOf(doc, files, failing, codec, dst).Some?
    ensures var o := ImportOf(other, ExportOf(doc, files, failing, codec, dst).value, failing, codec, home, dst);
      && (o.result.Err? ==> o.result.error == BackupFailed && o.doc == other)
      && (o.result.Ok? ==> o.doc == doc)
  {
    assert codec.load(codec.dump(doc)) == Ok(doc);
  }

  /** `export_config` to the chosen path. */
  method Export(w: ConfigWindow, dst: Path) returns (ok: bool)
    modifies w.fs
    ensures ok <==> ExportOf(w.doc, old(w.fs.files), w.fs.failing, w.codec, dst).Some?
    ensures w.fs.files == ExportOf(w.doc, old(w.fs.files), w.fs.failing, w.codec, dst).GetOr(old(w.fs.files))
  {
    ok := w.fs.Write(dst, w.codec.dump(w.GetConfigData()));
  }

  /** Copy the settings file to `backup` when it exists; false when the copy fails. */
  method BackUp(w: ConfigWindow, backup: Path) returns (ok: bool)
    modifies w.fs
    ensures var config := ConfigPath(w.home);
      var f := if config in old(w.fs.files) then CopyOf(old(w.fs.files), w.fs.failing, config, backup) else Some(old(w.fs.files));
      (ok <==> f.Some?) && w.fs.files == f.GetOr(old(w.fs.files))
  {
    var config := w.ConfigFile();
    ok := true;
    if w.fs.Exists(config) {
      ok := w.fs.Copy(config, backup);
    }
  }

  /** `import_config` from the chosen file, once confirmed. */
  method Import(w: ConfigWindow, src: Path) returns (r: Result<bool, ReplaceError>)
    modifies w, w.fs
    ensures Outcome(w.doc, w.fs.files, r) == old(ImportOf(w.doc, w.fs.files, w.fs.failing, w.codec, w.home, src))
  {
    ConfigBackupPaths(w.home, "");
    var text := w.fs.Read(src);
    if text.Err? {
      return Err(CannotLoad(ReadFailed(text.error)));
    }
    var parsed := w.codec.load(text.value);
    if parsed.Err? {
      return Err(CannotLoad(ParseFailed(parsed.error)));
    }
    var ok := BackUp(w, BackupPath(w.ConfigFile()));
    if !ok {
      return Err(BackupFailed);
    }
    var saved := w.Commit(parsed.value);
    r := Ok(saved.value);
  }

  /** `reset_config` at the time stamp `stamp`, once confirmed. */
  method Reset(w: ConfigWindow, stamp: string) returns (r: Result<bool, ReplaceError>)
    modifies w, w.fs
    ensures Outcome(w.doc, w.fs.files, r) == old(ResetOf(w.doc, w.fs.files, w.fs.failing, w.codec, w.home, stamp))
  {
    ConfigBackupPaths(w.home, stamp);
    var ok := BackUp(w, StampedBackupPath(w.ConfigFile(), stamp));
    if !ok {
      return Err(BackupFailed);
    }
    var saved := w.Commit(DefaultConfig());
    r := Ok(saved.value);
  }
}
