/**
 * Paths as `pathlib` treats them and the file system as a map from path to
 * file content. Paths in `failing` are those whose open or copy raises
 * (permission denied, a directory in the way, a full disk, ...).
 */
module Files {
  import opened Wrappers

  type Path = string

  /** Index of the last `c` in `s`, or -1 (`str.rfind`). */
  function LastIndex(s: string, c: char): (i: int)
    ensures -1 <= i < |s|
    ensures i >= 0 ==> s[i] == c
    ensures forall j :: i < j < |s| ==> s[j] != c
  {
    if |s| == 0 then -1
    else if s[|s| - 1] == c then |s| - 1
    else LastIndex(s[..|s| - 1], c)
  }

  /** `PurePath.name`: the part after the last `/`. */
  function FileName(p: Path): (r: string)
    ensures |r| <= |p| && r == p[|p| - |r|..]
    ensures '/' !in r
  {
    var r := p[LastIndex(p, '/') + 1..];
    assert forall k :: 0 <= k < |r| ==> r[k] == p[LastIndex(p, '/') + 1 + k];
    r
  }

  /** `PurePath.suffix`: from the last `.` of the name, unless the name starts or ends there. */
  function Suffix(name: string): (r: string)
    ensures r == "" || (|r| < |name| && r == name[|name| - |r|..] && 2 <= |r| && r[0] == '.')
  {
    var i := LastIndex(name, '.');
    if 0 < i < |name| - 1 then name[i..] else ""
  }

  /** `PurePath.with_suffix(suffix)`: the name's suffix replaced by `suffix`. */
  function WithSuffix(p: Path, suffix: string): (r: Path)
    requires FileName(p) != ""
    ensures r == p[..|p| - |Suffix(FileName(p))|] + suffix
  {
    p[..|p| - |Suffix(FileName(p))|] + suffix
  }

  /** `Path.home() / ".claude.json"`. */
  function ConfigPath(home: Path): Path {
    home + "/.claude.json"
  }

  /** The rolling backup written before every save. */
  function BackupPath(p: Path): Path
    requires FileName(p) != ""
  {
    WithSuffix(p, ".json.bak")
  }

  /** The backup a reset writes, stamped with the time of the reset. */
  function StampedBackupPath(p: Path, stamp: string): Path
    requires FileName(p) != ""
  {
    WithSuffix(p, ".json.bak." + stamp)
  }

  /**
   * For the settings file the backups are siblings: `.claude.json.bak` and
   * `.claude.json.bak.<stamp>`, never the settings file itself and never each other.
   */
  lemma ConfigBackupPaths(home: Path, stamp: string)
    ensures FileName(ConfigPath(home)) == ".claude.json"
    ensures BackupPath(ConfigPath(home)) == home + "/.claude.json.bak"
    ensures StampedBackupPath(ConfigPath(home), stamp) == home + "/.claude.json.bak." + stamp
    ensures BackupPath(ConfigPath(home)) != ConfigPath(home)
    ensures StampedBackupPath(ConfigPath(home), stamp) != ConfigPath(home)
    ensures StampedBackupPath(ConfigPath(home), stamp) != BackupPath(ConfigPath(home))
  {
    ConfigWithSuffix(home, ".json.bak");
    ConfigWithSuffix(home, ".json.bak." + stamp);
    assert home + "/.claude" + ".json.bak" == home + "/.claude.json.bak";
    assert home + "/.claude" + (".json.bak." + stamp) == home + "/.claude.json.bak." + stamp;
  }

  /** The name of the settings file is the part after the home directory. */
  lemma ConfigFileName(home: Path)
    ensures FileName(ConfigPath(home)) == ".claude.json"
  {
    var p := ConfigPath(home);
    var n := |home|;
    assert LastIndex(p, '/') == n by {
      assert p[n] == '/';
      assert forall j :: n < j < |p| ==> p[j] == ".claude.json"[j - n - 1];
      assert LastIndex(p, '/') >= n;
    }
    assert p[n + 1..] == ".claude.json";
  }

  /** Changing the suffix of the settings file replaces its `.json`. */
  lemma ConfigWithSuffix(home: Path, suffix: string)
    ensures FileName(ConfigPath(home)) == ".claude.json"
    ensures WithSuffix(ConfigPath(home), suffix) == home + "/.claude" + suffix
  {
    var p := ConfigPath(home);
    ConfigFileName(home);
    assert LastIndex(".claude.json", '.') == 7 by {
      var name := ".claude.json";
      assert name[7] == '.';
      assert LastIndex(name, '.') >= 7;
    }
    assert Suffix(".claude.json") == ".json";
    assert p[..|p| - 5] == home + "/.claude";
  }

  datatype IoError = NotFound | Denied

  /** `open(p).read()`. */
  function ReadOf(files: map<Path, string>, failing: set<Path>, p: Path): (r: Result<string, IoError>)
    ensures r.Ok? <==> p in files && p !in failing
    ensures r.Ok? ==> r.value == files[p]
  {
    if p in failing then Err(Denied)
    else if p !in files then Err(NotFound)
    else Ok(files[p])
  }

  /** `open(p, 'w').write(text)`: the files after the write, or None when it fails. */
  function WriteOf(files: map<Path, string>, failing: set<Path>, p: Path, text: string): (r: Option<map<Path, string>>)
    ensures r.Some? <==> p !in failing
    ensures r.Some? ==> r.value == files[p := text]
  {
    if p in failing then None else Some(files[p := text])
  }

  /** `shutil.copy2(src, dst)` on contents: the files after the copy, or None when it fails. */
  function CopyOf(files: map<Path, string>, failing: set<Path>, src: Path, dst: Path): (r: Option<map<Path, string>>)
    ensures r.Some? <==> src in files && src !in failing && dst !in failing
    ensures r.Some? ==> r.value == files[dst := files[src]]
  {
    if src in failing || dst in failing || src !in files then None
    else Some(files[dst := files[src]])
  }

  /** The files the editor works on; only `files` ever changes. */
  class FileSystem {
    var files: map<Path, string>
    const failing: set<Path>

    constructor(files0: map<Path, string>, failing0: set<Path>)
      ensures files == files0 && failing == failing0
    {
      files := files0;
      failing := failing0;
    }

    /** `Path.exists()`. */
    predicate Exists(p: Path)
      reads this
    {
      p in files
    }

    method Read(p: Path) returns (r: Result<string, IoError>)
      ensures r == ReadOf(files, failing, p)
    {
      if p in failing {
        r := Err(Denied);
      } else if p !in files {
        r := Err(NotFound);
      } else {
        r := Ok(files[p]);
      }
    }

    method Write(p: Path, text: string) returns (ok: bool)
      modifies this
      ensures ok <==> WriteOf(old(files), failing, p, text).Some?
      ensures files == WriteOf(old(files), failing, p, text).GetOr(old(files))
    {
      ok := p !in failing;
      if ok {
        files := files[p := text];
      }
    }

    method Copy(src: Path, dst: Path) returns (ok: bool)
      modifies this
      ensures ok <==> CopyOf(old(files), failing, src, dst).Some?
      ensures files == CopyOf(old(files), failing, src, dst).GetOr(old(files))
    {
      ok := src in files && src !in failing && dst !in failing;
      if ok {
        files := files[dst := files[src]];
      }
    }
  }
}
