/**
 * The MCP server dialog: name, command, an argument line and a two-column
 * table of environment variables, validated on OK and read back as a
 * server description.
 */
module ServerDialog {
  import opened Wrappers
  import opened Dict
  import opened PyBuiltins
  import opened JsonValue

  /** One row of the environment table; a cell may hold no item. */
  datatype EnvRow = EnvRow(key: Option<string>, value: Option<string>)

  /** The dialog's fields as the user left them. */
  datatype ServerForm = ServerForm(name: string, command: string, args: string, env: seq<EnvRow>)

  /** What `get_server_data` hands back: stripped name and command, argument list, env dict. */
  datatype ServerData = ServerData(name: string, command: string, args: seq<string>, env: seq<Entry<string>>)

  datatype FormError = EmptyName | EmptyCommand

  /** `shlex.split`: the tokens of a shell-like line, or None where it raises. */
  type Tokenizer = string -> Option<seq<string>>

  /** `validate_and_accept`: the stripped name must be non-empty, then the stripped command. */
  function ValidateForm(f: ServerForm): (r: Result<(), FormError>)
    ensures r.Ok? <==> Strip(f.name) != "" && Strip(f.command) != ""
    ensures r == Err(EmptyName) <==> Strip(f.name) == ""
    ensures r == Err(EmptyCommand) <==> Strip(f.name) != "" && Strip(f.command) == ""
  {
    if Strip(f.name) == "" then Err(EmptyName)
    else if Strip(f.command) == "" then Err(EmptyCommand)
    else Ok(())
  }

  /** The argument list: nothing for a blank line, else `shlex.split`, else `str.split()` when shlex raises. */
  function ParseArgs(text: string, shlex: Tokenizer): (r: seq<string>)
    ensures AllSpace(text) ==> r == []
    ensures !AllSpace(text) && shlex(Strip(text)).Some? ==> r == shlex(Strip(text)).value
  {
    StripEmptyIffAllSpace(text);
    var t := Strip(text);
    if t == "" then []
    else match shlex(t)
      case Some(tokens) => tokens
      case None => Split(t)
  }

  /** A blank argument line gives no arguments, whatever the tokenizer. */
  lemma BlankArgsAreEmpty(text: string, shlex: Tokenizer)
    requires AllSpace(text)
    ensures ParseArgs(text, shlex) == []
  {
    StripEmptyIffAllSpace(text);
  }

  /** On the fallback path every argument is a non-empty run without whitespace. */
  lemma FallbackArgsAreWords(text: string, shlex: Tokenizer)
    requires shlex(Strip(text)).None?
    ensures forall k :: 0 <= k < |ParseArgs(text, shlex)| ==>
      |ParseArgs(text, shlex)[k]| > 0 && NoSpace(ParseArgs(text, shlex)[k])
  {
  }

  /**
   * Arguments shown joined by single spaces read back as the same list when
   * shlex raises or agrees, provided no argument is empty or holds whitespace.
   */
  lemma ArgsRoundTrip(args: seq<string>, shlex: Tokenizer)
    requires forall k :: 0 <= k < |args| ==> |args[k]| > 0 && NoSpace(args[k])
    requires shlex(Join(args, " ")) in {None, Some(args)}
    ensures ParseArgs(Join(args, " "), shlex) == args
  {
    JoinWordsStripped(args);
    SplitJoin(args);
    if args == [] {
      assert Strip("") == "";
    }
  }

  /** The assignment one env row makes: stripped key and value, nothing for a missing item or a blank key. */
  function EnvPair(row: EnvRow): (p: Option<Entry<string>>)
    ensures p.Some? <==> row.key.Some? && row.value.Some? && Strip(row.key.value) != ""
    ensures p.Some? ==> p.value == Entry(Strip(row.key.value), Strip(row.value.value))
  {
    if row.key.Some? && row.value.Some? && Strip(row.key.value) != "" then
      Some(Entry(Strip(row.key.value), Strip(row.value.value)))
    else None
  }

  /** The assignments of the env rows, one per row, in table order. */
  function EnvPairs(rows: seq<EnvRow>): (ps: seq<Option<Entry<string>>>)
    ensures |ps| == |rows| && forall i :: 0 <= i < |rows| ==> ps[i] == EnvPair(rows[i])
  {
    seq(|rows|, i requires 0 <= i < |rows| => EnvPair(rows[i]))
  }

  /** The env dict the row loop of `get_server_data` builds. */
  function EnvVars(rows: seq<EnvRow>): (r: seq<Entry<string>>)
    ensures UniqueKeys(r)
    ensures forall i :: 0 <= i < |r| ==> Some(r[i]) in EnvPairs(rows)
  {
    FromPairsKeys(EnvPairs(rows));
    FromPairsEntries(EnvPairs(rows));
    FromPairs(EnvPairs(rows))
  }

  /**
   * A variable is set exactly when some row with both items has it as its
   * stripped key; its value is the stripped value of the LAST such row.
   */
  lemma EnvVarsLastRowWins(rows: seq<EnvRow>, k: string, v: string)
    ensures Get(EnvVars(rows), k) == Some(v) <==>
      exists i :: IsLastEntry(EnvPairs(rows), i) && EnvPair(rows[i]) == Some(Entry(k, v))
  {
    FromPairsGet(EnvPairs(rows), k, v);
  }

  /** Every key of the env dict is non-empty and already stripped, and none repeats. */
  lemma EnvKeysStripped(rows: seq<EnvRow>)
    ensures UniqueKeys(EnvVars(rows))
    ensures forall k :: k in Keys(EnvVars(rows)) ==> k != "" && Strip(k) == k
  {
    FromPairsKeys(EnvPairs(rows));
    forall k | k in Keys(EnvVars(rows)) ensures k != "" && Strip(k) == k {
      var i :| 0 <= i < |rows| && EnvPairs(rows)[i].Some? && EnvPairs(rows)[i].value.key == k;
      StripIdempotent(rows[i].key.value);
    }
  }

  /** `get_server_data` as a value. */
  function ServerDataOf(f: ServerForm, shlex: Tokenizer): (r: ServerData)
    ensures r.name == Strip(f.name) && r.command == Strip(f.command)
    ensures r.args == ParseArgs(f.args, shlex) && r.env == EnvVars(f.env)
    ensures Strip(r.name) == r.name && Strip(r.command) == r.command
    ensures ValidateForm(f).Ok? ==> r.name != "" && r.command != ""
    ensures UniqueKeys(r.env)
  {
    var name := Strip(f.name);
    var command := Strip(f.command);
    StripIdempotent(f.name);
    StripIdempotent(f.command);
    ServerData(name, command, ParseArgs(f.args, shlex), EnvVars(f.env))
  }

  /**
   * The record `get_server_data` returns: no arguments for a blank line, and
   * each variable set to the stripped value of the last row naming it.
   */
  lemma ServerDataPromises(f: ServerForm, shlex: Tokenizer, k: string, v: string)
    ensures AllSpace(f.args) ==> ServerDataOf(f, shlex).args == []
    ensures Get(ServerDataOf(f, shlex).env, k) == Some(v) <==>
      exists i :: IsLastEntry(EnvPairs(f.env), i) && EnvPair(f.env[i]) == Some(Entry(k, v))
  {
    EnvVarsLastRowWins(f.env, k, v);
  }

  /** `get_server_data`: strip the fields, parse the arguments, fold the env rows. */
  method GetServerData(f: ServerForm, shlex: Tokenizer) returns (d: ServerData)
    ensures d == ServerDataOf(f, shlex)
  {
    var name := Strip(f.name);
    var command := Strip(f.command);
    var args := ParseArgs(f.args, shlex);
    var env: seq<Entry<string>> := [];
    var i := 0;
    while i < |f.env|
      invariant 0 <= i <= |f.env|
      invariant env == FromPairs(EnvPairs(f.env)[..i])
    {
      var row := f.env[i];
      FromPairsStep(EnvPairs(f.env), i);
      if row.key.Some? && row.value.Some? {
        var key := Strip(row.key.value);
        var value := Strip(row.value.value);
        if key != "" {
          env := Put(env, key, value);
        }
      }
      i := i + 1;
    }
    assert EnvPairs(f.env)[..|f.env|] == EnvPairs(f.env);
    d := ServerData(name, command, args, env);
  }

  /** `" ".join(x)` on a JSON value: a list of strings, the characters of a string, the keys of a dict. */
  function JoinText(v: Json): (r: Option<string>)
    ensures v.Arr? && (forall i :: 0 <= i < |v.items| ==> v.items[i].Str?) ==>
      r == Some(Join(seq(|v.items|, i requires 0 <= i < |v.items| => v.items[i].s), " "))
  {
    match v
    case Arr(items) =>
      if forall i :: 0 <= i < |items| ==> items[i].Str? then
        Some(Join(seq(|items|, i requires 0 <= i < |items| => items[i].s), " "))
      else None
    case Str(s) => Some(Join(seq(|s|, i requires 0 <= i < |s| => [s[i]]), " "))
    case Obj(fields) => Some(Join(Keys(fields), " "))
    case _ => None
  }

  /** The bounds of a C `int`, the parameter type of `QTableWidgetItem(int type)`. */
  const IntMin := -0x8000_0000
  const IntMax := 0x7FFF_FFFF

  /**
   * The text of the cell `QTableWidgetItem(v)` makes: a string is shown as
   * it is; a number or a bool picks the `QTableWidgetItem(int type)`
   * overload and makes an EMPTY cell (an item of that type); None where the
   * constructor raises (null, a list, a dict, a number beyond a C `int`).
   */
  function CellText(v: Json): (r: Option<string>)
    ensures v.Str? ==> r == Some(v.s)
    ensures (v.Num? || v.Bool?) && r.Some? ==> r.value == ""
    ensures r.None? <==> v.Null? || v.Arr? || v.Obj? || (v.Num? && !(IntMin <= v.n <= IntMax))
  {
    match v
    case Str(s) => Some(s)
    case Bool(_) => Some("")
    case Num(n) => if IntMin <= n <= IntMax then Some("") else None
    case _ => None
  }

  /** The env table rows for an `env` value: one per entry, in order; None where a cell cannot be made. */
  function EnvRowsOf(env: Json): (r: Option<seq<EnvRow>>)
    ensures r.Some? <==> env.Obj? && forall i :: 0 <= i < |env.fields| ==> CellText(env.fields[i].val).Some?
    ensures r.Some? ==> |r.value| == |env.fields|
    ensures r.Some? ==> forall i :: 0 <= i < |env.fields| ==>
      r.value[i] == EnvRow(Some(env.fields[i].key), CellText(env.fields[i].val))
  {
    if env.Obj? && forall i :: 0 <= i < |env.fields| ==> CellText(env.fields[i].val).Some? then
      Some(seq(|env.fields|, i requires 0 <= i < |env.fields| => EnvRow(Some(env.fields[i].key), CellText(env.fields[i].val))))
    else None
  }

  /**
   * Loading and reading back the env rows of distinct, stripped variables
   * gives every variable back, with a number or a bool turned into `""`.
   */
  lemma EnvRowsBlankNonText(env: seq<Entry<Json>>)
    requires EnvRowsOf(Obj(env)).Some?
    requires UniqueKeys(env)
    requires forall i :: 0 <= i < |env| ==> env[i].key != "" && Strip(env[i].key) == env[i].key
    requires forall i :: 0 <= i < |env| ==> env[i].val.Str? ==> Strip(env[i].val.s) == env[i].val.s
    ensures |EnvVars(EnvRowsOf(Obj(env)).value)| == |env|
    ensures forall i :: 0 <= i < |env| ==>
      EnvVars(EnvRowsOf(Obj(env)).value)[i] == Entry(env[i].key, if env[i].val.Str? then env[i].val.s else "")
  {
    var rows := EnvRowsOf(Obj(env)).value;
    var vars := seq(|env|, i requires 0 <= i < |env| => Entry(env[i].key, if env[i].val.Str? then env[i].val.s else ""));
    forall i | 0 <= i < |env| ensures EnvPairs(rows)[i] == Some(vars[i]) {
      if !env[i].val.Str? {
        assert Strip("") == "";
      }
    }
    assert EnvPairs(rows) == seq(|vars|, i requires 0 <= i < |vars| => Some(vars[i]));
    assert UniqueKeys(vars) by {
      forall i, j | 0 <= i < j < |vars| ensures vars[i].key != vars[j].key {
        assert vars[i].key == env[i].key && vars[j].key == env[j].key;
      }
    }
    FromPairsRebuilds(vars);
  }

  /** A numeric env value, opened and saved unchanged, is stored as the empty string. */
  lemma NumericEnvValueSavedEmpty(env: seq<Entry<Json>>, k: string, n: int)
    requires Strip(k) != "" && env == [Entry(k, Num(n))]
    requires IntMin <= n <= IntMax
    ensures EnvRowsOf(Obj(env)).Some?
    ensures EnvVars(EnvRowsOf(Obj(env)).value) == [Entry(Strip(k), "")]
  {
    NumericEnvRow(env, k, n);
    SingleRowSaved(EnvRowsOf(Obj(env)).value, k, "");
    assert Strip("") == "";
  }

  /** The env table shows a numeric value as an empty cell. */
  lemma NumericEnvRow(env: seq<Entry<Json>>, k: string, n: int)
    requires env == [Entry(k, Num(n))]
    requires IntMin <= n <= IntMax
    ensures EnvRowsOf(Obj(env)) == Some([EnvRow(Some(k), Some(""))])
  {
    assert CellText(env[0].val) == Some("");
    var rows := EnvRowsOf(Obj(env)).value;
    assert rows == [rows[0]];
  }

  /** A table of one row with a non-blank key saves as that one variable, stripped. */
  lemma SingleRowSaved(rows: seq<EnvRow>, k: string, v: string)
    requires rows == [EnvRow(Some(k), Some(v))] && Strip(k) != ""
    ensures EnvVars(rows) == [Entry(Strip(k), Strip(v))]
  {
    var ps := EnvPairs(rows);
    assert ps[0] == Some(Entry(Strip(k), Strip(v)));
    assert ps[..0] == [];
    assert FromPairs(ps) == Put(FromPairs(ps[..0]), Strip(k), Strip(v));
  }

  /**
   * `load_data` for a dialog opened on server `name` with entry `config`: an
   * empty form when `config` is falsy; otherwise the name, the command, the
   * arguments joined by spaces and one env row per entry. None where Python
   * raises: an entry that is not a dict, a command that is not text
   * (`setText` takes only a string), arguments `" ".join` refuses, or an env
   * value no cell can be made of.
   */
  function LoadForm(name: string, config: Json): (r: Option<ServerForm>)
    ensures !Truthy(config) ==> r == Some(ServerForm("", "", "", []))
    ensures r.None? ==> Truthy(config)
    ensures r.Some? && Truthy(config) ==> r.value.name == name && config.Obj?
    ensures r.Some? && Truthy(config) ==> GetOr(config.fields, "command", Str("")) == Str(r.value.command)
    ensures r.Some? && Truthy(config) ==>
      GetOr(config.fields, "env", Obj([])).Obj? && |r.value.env| == |GetOr(config.fields, "env", Obj([])).fields|
    ensures r.Some? && Truthy(config) ==> Some(r.value.args) == JoinText(GetOr(config.fields, "args", Arr([])))
    ensures r.Some? && Truthy(config) ==> Some(r.value.env) == EnvRowsOf(GetOr(config.fields, "env", Obj([])))
  {
    if !Truthy(config) then Some(ServerForm("", "", "", []))
    else if !config.Obj? then None
    else
      var command := GetOr(config.fields, "command", Str(""));
      var args := JoinText(GetOr(config.fields, "args", Arr([])));
      var env := EnvRowsOf(GetOr(config.fields, "env", Obj([])));
      if command.Str? && args.Some? && env.Some? then
        Some(ServerForm(name, command.s, args.value, env.value))
      else None
  }

  /** `load_data` with its row loop: `add_env_row(key, value)` for each env entry. */
  method LoadData(name: string, config: Json) returns (form: Option<ServerForm>)
    ensures form == LoadForm(name, config)
  {
    if !Truthy(config) {
      return Some(ServerForm("", "", "", []));
    }
    if !config.Obj? {
      return None;
    }
    var command := GetOr(config.fields, "command", Str(""));
    var args := JoinText(GetOr(config.fields, "args", Arr([])));
    var env := GetOr(config.fields, "env", Obj([]));
    if !command.Str? || args.None? || !env.Obj? {
      return None;
    }
    var rows: seq<EnvRow> := [];
    var i := 0;
    while i < |env.fields|
      invariant 0 <= i <= |env.fields|
      invariant |rows| == i
      invariant forall j :: 0 <= j < i ==>
        CellText(env.fields[j].val).Some? && rows[j] == EnvRow(Some(env.fields[j].key), CellText(env.fields[j].val))
    {
      var e := env.fields[i];
      var cell := CellText(e.val);
      if cell.None? {
        return None;
      }
      rows := rows + [EnvRow(Some(e.key), cell)];
      i := i + 1;
    }
    assert EnvRowsOf(env).Some?;
    assert EnvRowsOf(env).value == rows;
    form := Some(ServerForm(name, command.s, args.value, rows));
  }
}
