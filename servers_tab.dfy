/**
 * The MCP servers tab: the `mcpServers` dict, mapping a server name to
 * `{"command": ..., "args": [...], "env": {...}}`.
 */
module ServersTab {
  import opened Wrappers
  import opened Dict
  import opened PyBuiltins
  import opened JsonValue
  import opened MainWindow
  import opened ServerDialog

  const ServersKey := "mcpServers"

  /** The server dict of a document (see `Slot`). */
  function Servers(doc: Json): (r: Option<seq<Entry<Json>>>)
    ensures r.Some? ==> doc.Obj?
    ensures doc.Obj? && ServersKey !in Keys(doc.fields) ==> r == Some([])
    ensures r.Some? && ServersKey in Keys(doc.fields) ==> Get(doc.fields, ServersKey) == Some(Obj(r.value))
    ensures doc.Obj? && ServersKey in Keys(doc.fields) && !Get(doc.fields, ServersKey).value.Obj? ==> r.None?
  {
    Slot(doc, ServersKey)
  }

  /** The entry stored for server `name`, if any. */
  function ServerOf(doc: Json, name: string): Option<Json> {
    match Servers(doc)
    case None => None
    case Some(servers) => Get(servers, name)
  }

  /** Store `servers` in the server slot (created at the end when absent). */
  function WithServers(doc: Json, servers: seq<Entry<Json>>): (d: Json)
    requires doc.Obj?
    ensures OnlyKeyChanged(doc, d, ServersKey) && Servers(d) == Some(servers)
  {
    SetKey(doc, ServersKey, Obj(servers))
  }

  /** The entry the tab writes for a server: command and args, then env when there is any. */
  function EntryFor(data: ServerData): (r: Json)
    ensures r.Obj? && UniqueKeys(r.fields)
    ensures Keys(r.fields) == if data.env != [] then ["command", "args", "env"] else ["command", "args"]
  {
    var base := [Entry("command", Str(data.command)), Entry("args", Arr(Strs(data.args)))];
    if data.env != [] then Obj(base + [Entry("env", Obj(StrFields(data.env)))]) else Obj(base)
  }

  /** A written entry always has `command` and `args`, and has `env` exactly when there are variables. */
  lemma EntryShape(data: ServerData)
    ensures EntryFor(data).Obj?
    ensures Get(EntryFor(data).fields, "command") == Some(Str(data.command))
    ensures Get(EntryFor(data).fields, "args") == Some(Arr(Strs(data.args)))
    ensures Get(EntryFor(data).fields, "env").Some? <==> data.env != []
    ensures data.env != [] ==> Get(EntryFor(data).fields, "env") == Some(Obj(StrFields(data.env)))
  {
    var f := EntryFor(data).fields;
    assert f[0].key == "command" && f[1].key == "args";
    assert f[1..][0] == f[1];
    assert Get(f, "args") == Get(f[1..], "args");
    assert Get(f, "env") == Get(f[1..], "env") == Get(f[2..], "env");
    if data.env != [] {
      assert f[2..] == [Entry("env", Obj(StrFields(data.env)))];
    } else {
      assert f[2..] == [];
    }
  }

  /** `add_server`: the entry under the dialog's name is written wholesale. */
  function AddServerTo(doc: Json, data: ServerData): (r: Result<Json, EditError>)
    ensures r.Ok? <==> Servers(doc).Some?
    ensures r.Err? ==> r.error == WrongShape
  {
    match Servers(doc)
    case None => Err(WrongShape)
    case Some(servers) => Ok(WithServers(doc, Put(servers, data.name, EntryFor(data))))
  }

  /**
   * `edit_server` on `oldName`: the dialog must first load the entry (its
   * `load_data` raises on a command that is not text, arguments that
   * `" ".join` refuses or an env value no cell can be made of); then a
   * renamed server's old entry is deleted and the entry under the new name
   * is written wholesale.
   */
  function EditServerIn(doc: Json, oldName: string, data: ServerData): (r: Result<Json, EditError>)
    ensures r.Ok? <==>
      Servers(doc).Some? && oldName in Keys(Servers(doc).value) && LoadForm(oldName, ServerOf(doc, oldName).value).Some?
    ensures r == Err(NotFound) <==> Servers(doc).Some? && oldName !in Keys(Servers(doc).value)
  {
    match Servers(doc)
    case None => Err(WrongShape)
    case Some(servers) =>
      if oldName !in Keys(servers) then Err(NotFound)
      else if LoadForm(oldName, Get(servers, oldName).value).None? then Err(WrongShape)
      else
        var kept := if data.name != oldName then Remove(servers, oldName) else servers;
        Ok(WithServers(doc, Put(kept, data.name, EntryFor(data))))
  }

  /** `delete_server`: the server's entry is dropped; an absent one changes nothing. */
  function DeleteServerFrom(doc: Json, name: string): (r: Result<Json, EditError>)
    ensures r.Ok? <==> Servers(doc).Some? && name in Keys(Servers(doc).value)
  {
    match Servers(doc)
    case None => Err(WrongShape)
    case Some(servers) =>
      if name in Keys(servers) then Ok(WithServers(doc, Remove(servers, name))) else Err(NotFound)
  }

  /**
   * Adding creates the slot when missing and replaces any entry of the same
   * name without merging; every other server and key is untouched.
   */
  lemma AddServerEffect(doc: Json, data: ServerData)
    requires AddServerTo(doc, data).Ok?
    ensures var d := AddServerTo(doc, data).value;
      && OnlyKeyChanged(doc, d, ServersKey)
      && ServerOf(d, data.name) == Some(EntryFor(data))
      && (forall other :: other != data.name ==> ServerOf(d, other) == ServerOf(doc, other))
      && (ServersKey !in Keys(doc.fields) ==> Servers(d) == Some([Entry(data.name, EntryFor(data))]))
  {
    var servers := Servers(doc).value;
    PutGet(servers, data.name, EntryFor(data));
    if ServersKey !in Keys(doc.fields) {
      assert Get(doc.fields, ServersKey).None?;
    }
  }

  /**
   * Editing leaves the new name holding exactly the dialog's entry (over any
   * server that had that name), the old name gone when it changed, and every
   * other server untouched; an edit that keeps the name keeps its place.
   */
  lemma EditServerEffect(doc: Json, oldName: string, data: ServerData)
    requires EditServerIn(doc, oldName, data).Ok?
    ensures var d := EditServerIn(doc, oldName, data).value;
      && OnlyKeyChanged(doc, d, ServersKey)
      && ServerOf(d, data.name) == Some(EntryFor(data))
      && (data.name != oldName ==> ServerOf(d, oldName).None?)
      && (forall other :: other != data.name && other != oldName ==> ServerOf(d, other) == ServerOf(doc, other))
      && (data.name == oldName ==> Keys(Servers(d).value) == Keys(Servers(doc).value))
  {
    var servers := Servers(doc).value;
    var kept := if data.name != oldName then Remove(servers, oldName) else servers;
    RemoveGet(servers, oldName);
    PutGet(kept, data.name, EntryFor(data));
    PutKeys(kept, data.name, EntryFor(data));
  }

  /** Deleting removes exactly that server and nothing else. */
  lemma DeleteServerEffect(doc: Json, name: string)
    requires DeleteServerFrom(doc, name).Ok?
    ensures var d := DeleteServerFrom(doc, name).value;
      && OnlyKeyChanged(doc, d, ServersKey)
      && ServerOf(d, name).None?
      && (forall other :: other != name ==> ServerOf(d, other) == ServerOf(doc, other))
  {
    RemoveGet(Servers(doc).value, name);
  }

  /**
   * Opening the edit dialog on an entry the tab wrote and pressing OK gives
   * back the same server, when its fields are already stripped, its
   * arguments are plain words and shlex raises or agrees on them.
   */
  lemma EditDialogRoundTrip(data: ServerData, shlex: Tokenizer)
    requires data.name != "" && Strip(data.name) == data.name
    requires data.command != "" && Strip(data.command) == data.command
    requires forall k :: 0 <= k < |data.args| ==> |data.args[k]| > 0 && NoSpace(data.args[k])
    requires shlex(Join(data.args, " ")) in {None, Some(data.args)}
    requires UniqueKeys(data.env)
    requires forall i :: 0 <= i < |data.env| ==>
      data.env[i].key != "" && Strip(data.env[i].key) == data.env[i].key && Strip(data.env[i].val) == data.env[i].val
    ensures LoadForm(data.name, EntryFor(data)).Some?
    ensures ValidateForm(LoadForm(data.name, EntryFor(data)).value).Ok?
    ensures ServerDataOf(LoadForm(data.name, EntryFor(data)).value, shlex) == data
  {
    LoadWrittenEntry(data);
    FormRoundTrip(data, shlex);
  }

  /** The form filled in from written data reads back as that data. */
  lemma FormRoundTrip(data: ServerData, shlex: Tokenizer)
    requires data.name != "" && Strip(data.name) == data.name
    requires data.command != "" && Strip(data.command) == data.command
    requires forall k :: 0 <= k < |data.args| ==> |data.args[k]| > 0 && NoSpace(data.args[k])
    requires shlex(Join(data.args, " ")) in {None, Some(data.args)}
    requires UniqueKeys(data.env)
    requires forall i :: 0 <= i < |data.env| ==>
      data.env[i].key != "" && Strip(data.env[i].key) == data.env[i].key && Strip(data.env[i].val) == data.env[i].val
    ensures var form := ServerForm(data.name, data.command, Join(data.args, " "), RowsFor(data.env));
      ValidateForm(form).Ok? && ServerDataOf(form, shlex) == data
  {
    ArgsRoundTrip(data.args, shlex);
    EnvRoundTrip(data.env);
  }

  /** Folding the rows shown for stripped, distinct variables gives the same variables back. */
  lemma EnvRoundTrip(vars: seq<Entry<string>>)
    requires UniqueKeys(vars)
    requires forall i :: 0 <= i < |vars| ==>
      vars[i].key != "" && Strip(vars[i].key) == vars[i].key && Strip(vars[i].val) == vars[i].val
    ensures EnvVars(RowsFor(vars)) == vars
  {
    var ps := EnvPairs(RowsFor(vars));
    assert forall i :: 0 <= i < |vars| ==> ps[i] == Some(vars[i]);
    assert ps == seq(|vars|, i requires 0 <= i < |vars| => Some(vars[i]));
    FromPairsRebuilds(vars);
  }

  /** The env rows the dialog shows for the variables `vars`. */
  function RowsFor(vars: seq<Entry<string>>): seq<EnvRow> {
    seq(|vars|, i requires 0 <= i < |vars| => EnvRow(Some(vars[i].key), Some(vars[i].val)))
  }

  /** The edit dialog opened on a written entry shows its command, its words joined by spaces and its variables. */
  lemma LoadWrittenEntry(data: ServerData)
    ensures LoadForm(data.name, EntryFor(data)) ==
      Some(ServerForm(data.name, data.command, Join(data.args, " "), RowsFor(data.env)))
  {
    EntryShape(data);
    var f := EntryFor(data).fields;
    var strs := Strs(data.args);
    assert seq(|strs|, i requires 0 <= i < |strs| => strs[i].s) == data.args;
    assert JoinText(Arr(strs)) == Some(Join(data.args, " "));
    assert GetOr(f, "command", Str("")) == Str(data.command);
    assert GetOr(f, "args", Arr([])) == Arr(strs);
    var fields := StrFields(data.env);
    assert GetOr(f, "env", Obj([])) == Obj(fields);
    assert forall i :: 0 <= i < |fields| ==> fields[i].val.Str?;
    assert EnvRowsOf(Obj(fields)).Some?;
    assert EnvRowsOf(Obj(fields)).value == RowsFor(data.env);
  }

  /** The env column: `k=v` for each variable, in order, joined by `"; "`; empty exactly when there are none. */
  function EnvText(env: seq<Entry<Json>>): (r: string)
    ensures r == "" <==> env == []
  {
    var parts := seq(|env|, i requires 0 <= i < |env| => env[i].key + "=" + PyStr(env[i].val));
    if env != [] then
      assert |parts[0]| > 0;
      JoinNonEmpty(parts);
      Join(parts, "; ")
    else Join(parts, "; ")
  }

  /** The env column lists the first variable as `k=v`, then `"; "` and the column of the rest. */
  lemma EnvTextCons(e: Entry<Json>, env: seq<Entry<Json>>)
    requires env != []
    ensures EnvText([e] + env) == e.key + "=" + PyStr(e.val) + "; " + EnvText(env)
  {
    var es := [e] + env;
    var ps := seq(|es|, i requires 0 <= i < |es| => es[i].key + "=" + PyStr(es[i].val));
    var qs := seq(|env|, i requires 0 <= i < |env| => env[i].key + "=" + PyStr(env[i].val));
    assert ps[1..] == qs;
  }

  /** Joining parts whose first one is non-empty gives a non-empty text. */
  lemma JoinNonEmpty(parts: seq<string>)
    requires |parts| > 0 && |parts[0]| > 0
    ensures Join(parts, "; ") != ""
  {
  }

  /** One row of the server table. */
  datatype ServerRow = ServerRow(name: string, command: string, args: string, env: string)

  /**
   * The row for one server: its name, the command cell, the `str` of the
   * arguments and the env column. None where Python raises: an entry that is
   * not a dict, a command no cell can be made of, an env that is not a dict.
   */
  function RowFor(name: string, config: Json): (r: Option<ServerRow>)
    ensures r.Some? <==>
      config.Obj? && CellText(GetOr(config.fields, "command", Str(""))).Some? && GetOr(config.fields, "env", Obj([])).Obj?
    ensures r.Some? ==> r.value.name == name
    ensures r.Some? ==> (r.value.env == "" <==> GetOr(config.fields, "env", Obj([])).fields == [])
    ensures r.Some? && GetOr(config.fields, "command", Str("")).Str? ==>
      r.value.command == GetOr(config.fields, "command", Str("")).s
    ensures r.Some? && !GetOr(config.fields, "command", Str("")).Str? ==> r.value.command == ""
    ensures r.Some? ==> r.value.args == PyStr(GetOr(config.fields, "args", Arr([])))
    ensures r.Some? ==> r.value.env == EnvText(GetOr(config.fields, "env", Obj([])).fields)
  {
    if !config.Obj? then None
    else
      var command := CellText(GetOr(config.fields, "command", Str("")));
      var env := GetOr(config.fields, "env", Obj([]));
      if command.Some? && env.Obj? then
        Some(ServerRow(name, command.value, PyStr(GetOr(config.fields, "args", Arr([]))), EnvText(env.fields)))
      else None
  }

  /**
   * An entry whose command is a number shows an empty command cell in the
   * table, but the edit dialog cannot be opened on it (`setText` raises).
   */
  lemma NumericCommandShownEmpty(name: string, config: Json, n: int)
    requires config == Obj([Entry("command", Num(n))])
    requires IntMin <= n <= IntMax
    ensures RowFor(name, config).Some? && RowFor(name, config).value.command == ""
    ensures Truthy(config) && LoadForm(name, config).None?
  {
    assert GetOr(config.fields, "command", Str("")) == Num(n);
    assert Get(config.fields, "env").None?;
  }

  /** The server table `load_data` fills: one row per server, in dict order. */
  function ServerRows(doc: Json): (rows: Option<seq<ServerRow>>)
    ensures rows.Some? <==>
      && Servers(doc).Some?
      && forall i :: 0 <= i < |Servers(doc).value| ==> RowFor(Servers(doc).value[i].key, Servers(doc).value[i].val).Some?
    ensures rows.Some? ==> Servers(doc).Some? && |rows.value| == |Servers(doc).value|
    ensures rows.Some? ==> forall i :: 0 <= i < |rows.value| ==>
      Some(rows.value[i]) == RowFor(Servers(doc).value[i].key, Servers(doc).value[i].val)
  {
    match Servers(doc)
    case None => None
    case Some(servers) =>
      if forall i :: 0 <= i < |servers| ==> RowFor(servers[i].key, servers[i].val).Some? then
        Some(seq(|servers|, i requires 0 <= i < |servers| && RowFor(servers[i].key, servers[i].val).Some? =>
          RowFor(servers[i].key, servers[i].val).value))
      else None
  }

  /** A written entry shows its command, its argument list's `repr` and, for no variables, an empty env column. */
  lemma WrittenEntryRow(data: ServerData)
    ensures RowFor(data.name, EntryFor(data)) ==
      Some(ServerRow(data.name, data.command, PyRepr(Arr(Strs(data.args))),
        if data.env == [] then "" else EnvText(StrFields(data.env))))
  {
    EntryShape(data);
  }

  /** `load_data`: the loop that fills the server table. */
  method LoadData(doc: Json) returns (rows: Option<seq<ServerRow>>)
    ensures rows == ServerRows(doc)
  {
    var servers := Servers(doc);
    if servers.None? {
      return None;
    }
    var table: seq<ServerRow> := [];
    var i := 0;
    while i < |servers.value|
      invariant 0 <= i <= |servers.value| && |table| == i
      invariant forall j :: 0 <= j < i ==> Some(table[j]) == RowFor(servers.value[j].key, servers.value[j].val)
    {
      var row := RowFor(servers.value[i].key, servers.value[i].val);
      if row.None? {
        return None;
      }
      table := table + [row.value];
      i := i + 1;
    }
    assert forall j :: 0 <= j < |servers.value| ==> RowFor(servers.value[j].key, servers.value[j].val).Some?;
    assert ServerRows(doc).Some?;
    assert ServerRows(doc).value == table;
    rows := Some(table);
  }

  /** `add_server` once the dialog accepted. */
  method AddServer(w: ConfigWindow, data: ServerData) returns (r: Result<bool, EditError>)
    modifies w, w.fs
    ensures w.Applied(old(AddServerTo(w.doc, data)), r)
  {
    var edit := AddServerTo(w.GetConfigData(), data);
    if edit.Err? {
      return Err(edit.error);
    }
    r := w.Commit(edit.value);
  }

  /** `edit_server` on the selected server, once the dialog accepted. */
  method EditServer(w: ConfigWindow, oldName: string, data: ServerData) returns (r: Result<bool, EditError>)
    modifies w, w.fs
    ensures w.Applied(old(EditServerIn(w.doc, oldName, data)), r)
  {
    var edit := EditServerIn(w.GetConfigData(), oldName, data);
    if edit.Err? {
      return Err(edit.error);
    }
    r := w.Commit(edit.value);
  }

  /** `delete_server` on the selected server, once confirmed. */
  method DeleteServer(w: ConfigWindow, name: string) returns (r: Result<bool, EditError>)
    modifies w, w.fs
    ensures w.Applied(old(DeleteServerFrom(w.doc, name)), r)
  {
    var edit := DeleteServerFrom(w.GetConfigData(), name);
    if edit.Err? {
      return Err(edit.error);
    }
    r := w.Commit(edit.value);
  }
}
