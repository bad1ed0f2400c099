/**
 * The projects tab: the `githubRepoPaths` dict, mapping a repository name
 * ("owner/repo") to the list of local folders checked out from it.
 */
module ProjectsTab {
  import opened Wrappers
  import opened Dict
  import opened PyBuiltins
  import opened JsonValue
  import opened MainWindow

  const ReposKey := "githubRepoPaths"

  /** The repository dict of a document (see `Slot`). */
  function Repos(doc: Json): (r: Option<seq<Entry<Json>>>)
    ensures r.Some? ==> doc.Obj?
    ensures doc.Obj? && ReposKey !in Keys(doc.fields) ==> r == Some([])
    ensures r.Some? && ReposKey in Keys(doc.fields) ==> Get(doc.fields, ReposKey) == Some(Obj(r.value))
    ensures doc.Obj? && ReposKey in Keys(doc.fields) && !Get(doc.fields, ReposKey).value.Obj? ==> r.None?
  {
    Slot(doc, ReposKey)
  }

  /** The path list stored for `repo`, if the repository is there. */
  function PathsOf(doc: Json, repo: string): (r: Option<Json>)
    ensures r.Some? <==> Repos(doc).Some? && repo in Keys(Repos(doc).value)
    ensures r.Some? ==> doc.Obj?
  {
    match Repos(doc)
    case None => None
    case Some(repos) => Get(repos, repo)
  }

  /** Store `repos` in the repository slot (created at the end when absent). */
  function WithRepos(doc: Json, repos: seq<Entry<Json>>): (d: Json)
    requires doc.Obj?
    ensures OnlyKeyChanged(doc, d, ReposKey) && Repos(d) == Some(repos)
  {
    SetKey(doc, ReposKey, Obj(repos))
  }

  /** `add_repo`: the repository gets an empty path list, replacing any list it had. */
  function AddRepoTo(doc: Json, repo: string): (r: Result<Json, EditError>)
    ensures r.Ok? <==> Repos(doc).Some?
    ensures r.Err? ==> r.error == WrongShape
  {
    match Repos(doc)
    case None => Err(WrongShape)
    case Some(repos) => Ok(WithRepos(doc, Put(repos, repo, Arr([]))))
  }

  /** `delete_repo`: the repository's entry is dropped; an absent one changes nothing. */
  function DeleteRepoFrom(doc: Json, repo: string): (r: Result<Json, EditError>)
    ensures r.Ok? <==> Repos(doc).Some? && repo in Keys(Repos(doc).value)
  {
    match Repos(doc)
    case None => Err(WrongShape)
    case Some(repos) =>
      if repo in Keys(repos) then Ok(WithRepos(doc, Remove(repos, repo))) else Err(NotFound)
  }

  /**
   * `add_path`: append a folder to an existing repository's list unless
   * `in` finds it there (an element of a list, a substring of a string, a
   * key of a dict); appending to anything but a list raises.
   */
  function AddPathTo(doc: Json, repo: string, path: string): (r: Result<Json, EditError>)
    ensures r == Err(AlreadyPresent) <==>
      path != "" && PathsOf(doc, repo).Some? && PyIn(path, PathsOf(doc, repo).value) == Some(true)
    ensures r.Ok? <==>
      path != "" && PathsOf(doc, repo).Some? && PathsOf(doc, repo).value.Arr?
      && Str(path) !in PathsOf(doc, repo).value.items
    ensures r == Err(NotFound) <==> path != "" && Repos(doc).Some? && repo !in Keys(Repos(doc).value)
  {
    if path == "" then Err(Cancelled)
    else match Repos(doc)
      case None => Err(WrongShape)
      case Some(repos) =>
        match Get(repos, repo)
        case None => Err(NotFound)
        case Some(v) =>
          match PyIn(path, v)
          case None => Err(WrongShape)
          case Some(found) =>
            if found then Err(AlreadyPresent)
            else if !v.Arr? then Err(WrongShape)
            else Ok(WithRepos(doc, Put(repos, repo, Arr(v.items + [Str(path)]))))
  }

  /** `remove_path`: the first occurrence of the folder leaves the repository's list. */
  function RemovePathFrom(doc: Json, repo: string, path: string): (r: Result<Json, EditError>)
    ensures r.Ok? <==>
      Repos(doc).Some? && PathsOf(doc, repo).Some? && PathsOf(doc, repo).value.Arr?
      && Str(path) in PathsOf(doc, repo).value.items
  {
    match Repos(doc)
    case None => Err(WrongShape)
    case Some(repos) =>
      match Get(repos, repo)
      case None => Err(NotFound)
      case Some(v) =>
        if !v.Arr? then Err(WrongShape)
        else if Str(path) in v.items then Ok(WithRepos(doc, Put(repos, repo, Arr(RemoveFirst(v.items, Str(path))))))
        else Err(NotFound)
  }

  /**
   * Adding a repository creates the slot when it is missing, leaves that
   * repository with an empty list (discarding paths it had), and changes
   * nothing else.
   */
  lemma AddRepoEffect(doc: Json, repo: string)
    requires AddRepoTo(doc, repo).Ok?
    ensures var d := AddRepoTo(doc, repo).value;
      && OnlyKeyChanged(doc, d, ReposKey)
      && PathsOf(d, repo) == Some(Arr([]))
      && (forall other :: other != repo ==> PathsOf(d, other) == PathsOf(doc, other))
      && (ReposKey !in Keys(doc.fields) ==> Repos(d) == Some([Entry(repo, Arr([]))]))
  {
    var repos := Repos(doc).value;
    PutGet(repos, repo, Arr([]));
    if ReposKey !in Keys(doc.fields) {
      assert Get(doc.fields, ReposKey).None?;
      assert repos == [];
    }
  }

  /** Deleting a repository removes exactly its entry, keeping the others and their order. */
  lemma DeleteRepoEffect(doc: Json, repo: string)
    requires DeleteRepoFrom(doc, repo).Ok?
    ensures var d := DeleteRepoFrom(doc, repo).value;
      && OnlyKeyChanged(doc, d, ReposKey)
      && PathsOf(d, repo).None?
      && (forall other :: other != repo ==> PathsOf(d, other) == PathsOf(doc, other))
      && (UniqueKeys(Repos(doc).value) ==>
          exists i :: 0 <= i < |Repos(doc).value| && Repos(doc).value[i].key == repo
            && Repos(d).value == Repos(doc).value[..i] + Repos(doc).value[i + 1..])
  {
    var repos := Repos(doc).value;
    RemoveGet(repos, repo);
    if UniqueKeys(repos) {
      var i :| 0 <= i < |repos| && Keys(repos)[i] == repo;
      RemoveAt(repos, i);
    }
  }

  /** Adding a folder appends it at the end of its repository's list, which grows by exactly one. */
  lemma AddPathEffect(doc: Json, repo: string, path: string)
    requires AddPathTo(doc, repo, path).Ok?
    ensures var d := AddPathTo(doc, repo, path).value;
      && OnlyKeyChanged(doc, d, ReposKey)
      && PathsOf(doc, repo).Some? && PathsOf(doc, repo).value.Arr?
      && PathsOf(d, repo) == Some(Arr(PathsOf(doc, repo).value.items + [Str(path)]))
      && Str(path) !in PathsOf(doc, repo).value.items
      && (forall other :: other != repo ==> PathsOf(d, other) == PathsOf(doc, other))
  {
    var repos := Repos(doc).value;
    var paths := Get(repos, repo).value.items;
    PutGet(repos, repo, Arr(paths + [Str(path)]));
  }

  /** A list without repeats keeps none after a folder is added. */
  lemma AddPathKeepsListDistinct(doc: Json, repo: string, path: string)
    requires AddPathTo(doc, repo, path).Ok?
    requires var items := PathsOf(doc, repo).value.items;
      forall i, j :: 0 <= i < j < |items| ==> items[i] != items[j]
    ensures var d := AddPathTo(doc, repo, path).value;
      && PathsOf(d, repo).Some? && PathsOf(d, repo).value.Arr?
      && var items := PathsOf(d, repo).value.items;
      forall i, j :: 0 <= i < j < |items| ==> items[i] != items[j]
  {
    AddPathEffect(doc, repo, path);
  }

  /** Removing a folder drops its first occurrence only. */
  lemma RemovePathEffect(doc: Json, repo: string, path: string)
    requires RemovePathFrom(doc, repo, path).Ok?
    ensures var d := RemovePathFrom(doc, repo, path).value;
      && OnlyKeyChanged(doc, d, ReposKey)
      && var items := PathsOf(doc, repo).value.items;
      && var i := IndexOf(items, Str(path));
      && PathsOf(d, repo) == Some(Arr(items[..i] + items[i + 1..]))
      && Str(path) !in items[..i]
      && (forall other :: other != repo ==> PathsOf(d, other) == PathsOf(doc, other))
  {
    var repos := Repos(doc).value;
    var paths := Get(repos, repo).value.items;
    PutGet(repos, repo, Arr(RemoveFirst(paths, Str(path))));
  }

  /** `len(x)` for a JSON value; None where Python raises. */
  function Len(v: Json): Option<nat> {
    match v
    case Str(s) => Some(|s|)
    case Arr(items) => Some(|items|)
    case Obj(fields) => Some(|fields|)
    case _ => None
  }

  /** One row of the repository table. */
  datatype RepoRow = RepoRow(name: string, count: string)

  /** The repository table `load_data` fills: name and `str(len(paths))` per repository, in dict order. */
  function RepoRows(doc: Json): (rows: Option<seq<RepoRow>>)
    ensures rows.Some? ==> Repos(doc).Some? && |rows.value| == |Repos(doc).value|
    ensures rows.Some? ==> forall i :: 0 <= i < |rows.value| ==>
      var e := Repos(doc).value[i];
      Len(e.val).Some? && rows.value[i] == RepoRow(e.key, NatToString(Len(e.val).value))
    ensures rows.None? <==> Repos(doc).None? || exists i :: 0 <= i < |Repos(doc).value| && Len(Repos(doc).value[i].val).None?
  {
    match Repos(doc)
    case None => None
    case Some(repos) =>
      if forall i :: 0 <= i < |repos| ==> Len(repos[i].val).Some? then
        Some(seq(|repos|, i requires 0 <= i < |repos| && Len(repos[i].val).Some? =>
          RepoRow(repos[i].key, NatToString(Len(repos[i].val).value))))
      else None
  }

  /** `load_data`: the loop that fills the repository table. */
  method LoadData(doc: Json) returns (rows: Option<seq<RepoRow>>)
    ensures rows == RepoRows(doc)
  {
    var repos := Repos(doc);
    if repos.None? {
      return None;
    }
    var table: seq<RepoRow> := [];
    var i := 0;
    while i < |repos.value|
      invariant 0 <= i <= |repos.value| && |table| == i
      invariant forall j :: 0 <= j < i ==>
        Len(repos.value[j].val).Some? && table[j] == RepoRow(repos.value[j].key, NatToString(Len(repos.value[j].val).value))
    {
      var e := repos.value[i];
      var n := Len(e.val);
      if n.None? {
        return None;
      }
      table := table + [RepoRow(e.key, NatToString(n.value))];
      i := i + 1;
    }
    assert forall j :: 0 <= j < |repos.value| ==> Len(repos.value[j].val).Some?;
    assert RepoRows(doc).Some?;
    assert RepoRows(doc).value == table;
    rows := Some(table);
  }

  /** `add_repo` once the dialog accepted `repo`. */
  method AddRepo(w: ConfigWindow, repo: string) returns (r: Result<bool, EditError>)
    modifies w, w.fs
    ensures w.Applied(old(AddRepoTo(w.doc, repo)), r)
  {
    var edit := AddRepoTo(w.GetConfigData(), repo);
    if edit.Err? {
      return Err(edit.error);
    }
    r := w.Commit(edit.value);
  }

  /** `delete_repo` on the selected repository, once confirmed. */
  method DeleteRepo(w: ConfigWindow, repo: string) returns (r: Result<bool, EditError>)
    modifies w, w.fs
    ensures w.Applied(old(DeleteRepoFrom(w.doc, repo)), r)
  {
    var edit := DeleteRepoFrom(w.GetConfigData(), repo);
    if edit.Err? {
      return Err(edit.error);
    }
    r := w.Commit(edit.value);
  }

  /** `add_path` with the folder the picker returned (`""` when cancelled). */
  method AddPath(w: ConfigWindow, repo: string, path: string) returns (r: Result<bool, EditError>)
    modifies w, w.fs
    ensures w.Applied(old(AddPathTo(w.doc, repo, path)), r)
  {
    var edit := AddPathTo(w.GetConfigData(), repo, path);
    if edit.Err? {
      return Err(edit.error);
    }
    r := w.Commit(edit.value);
  }

  /** `remove_path` on the selected repository and folder, once confirmed. */
  method RemovePath(w: ConfigWindow, repo: string, path: string) returns (r: Result<bool, EditError>)
    modifies w, w.fs
    ensures w.Applied(old(RemovePathFrom(w.doc, repo, path)), r)
  {
    var edit := RemovePathFrom(w.GetConfigData(), repo, path);
    if edit.Err? {
      return Err(edit.error);
    }
    r := w.Commit(edit.value);
  }
}
