# ClaudeApp settings editor, modelled in Dafny

ClaudeApp is a desktop editor for `~/.claude.json`, the settings file of a
command-line coding assistant. It loads the file into one in-memory JSON
document, shows the document on six tabs, and saves edits back. Before each
save it copies the previous file to a `.json.bak` backup. This project models
the logic under the Qt widgets and proves properties of it:

- **The settings document** (`json.dfy`, `dict.dfy`). A `Json` datatype holds
  it. A dict is an ordered list of entries, so Python's insertion order, which
  the tables display, is kept. `d[k] = v`, `del d[k]` and the dict-building row
  loops are functions, and lemmas state their effect.
- **The main window** (`window.dfy`, `files.dfy`). The class `ConfigWindow`
  owns the document. `load_config` and `save_config_to_file` run against a
  `FileSystem` class whose `files` map goes from path to content. Paths in
  `failing` raise on open or copy. Every tab applies an edit the same way: it
  mutates the document in place, then saves. The twostate predicate
  `ConfigWindow.Applied` states that outcome once.
- **The tabs**:
  - `projects_tab.dfy`: repositories and their folders in `githubRepoPaths`.
  - `servers_tab.dfy`: MCP servers in `mcpServers`.
  - `features_tab.dfy`: the Statsig and GrowthBook feature tables.
  - `general_tab.dfy`: `autoUpdates` and the read-only labels.
  - `user_info_tab.dfy`: the labels, plus export, import and reset.
  - `raw_config_tab.dfy`: the raw JSON text.

  Each edit is a function from document to `Result`, with lemmas for what
  changes and what does not. The methods perform the edit on the window and
  are proved equal to that function.
- **The dialogs** (`server_dialog.dfy`, `repo_dialog.dfy`). They cover form
  validation, reading a server back from the form (argument parsing and the
  fold of the environment-variable table), and filling the form from a stored
  entry.
- **The JSON highlighter** (`json_patterns.dfy`, `json_highlighter.dfy`).
  - The five regular expressions are matchers over `seq<char>`.
  - `re.finditer` is a left-to-right scan, proved sound, complete and
    non-overlapping.
  - The number pattern is checked against an independent automaton: the
    greedy match is its longest accepted prefix.
  - `highlightBlock` is a class over an `array<Option<Category>>` format
    buffer, written by five sweeps. The first four overwrite. The last writes
    a generic string match only when all of it is still unformatted.
- **The old single-window program** (`legacy.dfy`, `main_old.py`). It makes
  the same edits as the tabs, with three differences:
  - `get_server_data` raises on an empty name or command, because its dialog
    does not validate;
  - import and reset reload the settings file afterwards;
  - saving the raw text does not refresh the text editor.

  Lemmas relate the old behaviour to the new.

Python details modelled explicitly:

- `str.strip` uses the full `str.isspace` set.
- `str.split()` and `" ".join` are modelled.
- `list.remove` drops only the first occurrence.
- `str()` of a JSON value is modelled, with `repr` of strings: the quote
  choice and the `\x`, `\u` and `\U` escapes of unprintable characters.
- Python truthiness decides the labels and the check boxes.
- `timedelta`'s floor split into days and seconds is modelled for negative
  durations too.

Where the code raises (a slot of the wrong kind, say), the model returns an
error or `None` and leaves the document unchanged. The edits catch these
cases before mutating anything.

Where the program's documented intent and its code disagree, the model follows the code:

- A failed save leaves the in-memory document already changed. The tabs mutate
  it before `save_config_to_file` raises, and `Applied` states this.
- `add_repo` on an existing repository replaces its folder list with `[]`. It
  does not refuse the duplicate (`ProjectsTab.AddRepoEffect`).
- Reset writes a time-stamped backup. The save it then performs also
  overwrites the rolling `.json.bak` with the previous file
  (`UserInfoTab.ResetBacksUp`).

The edits of `main_old.py` (`add_repo` main_old.py:594-609, `delete_repo`
611-636, `add_path` 638-664, `remove_path` 666-699, `delete_mcp_server`
879-904, `save_general_settings` 534-542, `save_experimental_features`
544-592) are the tabs' edits on `self.config_data`, so the same functions and
lemmas cover them. Its `save_config_to_file` (906-920), `load_config`
(348-368), `toggle_statsig_feature` (527-532) and `RepoDialog` (1104-1115) are
those of the new window.

## Model

| member | source | states |
|---|---|---|
| PyBuiltins.Strip | app/ui/dialogs/repo_dialog.py:37 | `strip()` never lengthens the text, and what it returns neither starts nor ends with whitespace |
| PyBuiltins.StripDropsOnlySpace | app/ui/dialogs/repo_dialog.py:37 | what `strip()` returns is a contiguous slice of the input, with only whitespace before and after it |
| PyBuiltins.StripIdempotent | app/ui/dialogs/mcp_server_dialog.py:142-143 | a stripped text strips to itself |
| PyBuiltins.StripEmptyIffAllSpace | app/ui/dialogs/mcp_server_dialog.py:128-129 | `not text.strip()` holds exactly when the text is all whitespace |
| PyBuiltins.Split | app/ui/dialogs/mcp_server_dialog.py:153 | every word of `str.split()` is non-empty and free of whitespace |
| PyBuiltins.SplitJoin | app/ui/dialogs/mcp_server_dialog.py:146-153 | splitting words joined by single spaces gives back the words |
| PyBuiltins.JoinWordsStripped | app/ui/dialogs/mcp_server_dialog.py:89 | words joined by single spaces have nothing for `strip()` to remove |
| PyBuiltins.IndexOf | app/ui/tabs/projects_tab.py:225 | the index found holds the element, and no earlier position does |
| PyBuiltins.RemoveFirst | app/ui/tabs/projects_tab.py:225 | `list.remove` drops exactly one occurrence, the first one: one element fewer, the rest in order, the multiset less one copy |
| PyBuiltins.Contains | app/ui/tabs/projects_tab.py:185 | the substring test holds exactly when the text occurs at some position |
| PyBuiltins.IntToString | app/ui/tabs/experimental_features_tab.py:96 | `str()` of an integer is non-empty, starts with a minus exactly when the number is negative and otherwise with a digit |
| Dict.Get | app/ui/tabs/mcp_servers_tab.py:105 | a key is found exactly when it is one of the dict's keys |
| Dict.GetAt | app/ui/tabs/mcp_servers_tab.py:108 | with unique keys, looking up an entry's key gives that entry's value |
| Dict.PutGet | app/ui/dialogs/mcp_server_dialog.py:165 | after `d[k] = v`, `k` holds `v` and every other key holds what it held |
| Dict.PutKeys | app/ui/tabs/mcp_servers_tab.py:119 | `d[k] = v` keeps the key order, and a new key goes last |
| Dict.PutUnique | app/ui/tabs/mcp_servers_tab.py:119 | `d[k] = v` keeps the keys unique |
| Dict.RemoveGet | app/ui/tabs/mcp_servers_tab.py:154 | after `del d[k]`, `k` is absent and every other key holds what it held |
| Dict.RemoveAt | app/ui/tabs/projects_tab.py:159 | `del d[k]` removes exactly the entry carrying `k` and keeps the others in order |
| Dict.RemoveAbsent | app/ui/tabs/projects_tab.py:158 | deleting an absent key changes nothing |
| Dict.RemoveUnique | app/ui/tabs/projects_tab.py:159 | `del d[k]` keeps the keys unique |
| Dict.PutAbsent | app/ui/tabs/mcp_servers_tab.py:119 | assigning a new key appends its entry |
| Dict.FromPairsGet | app/ui/dialogs/mcp_server_dialog.py:156-165 | in a dict built by a row loop, a key holds `v` exactly when the last row assigning that key assigned `v` |
| Dict.FromPairsKeys | app/ui/dialogs/mcp_server_dialog.py:156-165 | a dict built by a row loop has unique keys, exactly the keys some row assigned |
| Dict.FromPairsRebuilds | app/ui/dialogs/mcp_server_dialog.py:156-165 | assigning a dict's entries one by one rebuilds the dict, order included |
| Dict.FromPairsEntries | app/ui/dialogs/mcp_server_dialog.py:156-165 | every entry of a dict built by a row loop is the assignment of one of its rows |
| JsonValue.SetKey | app/ui/tabs/general_settings_tab.py:96 | `doc[key] = v` stores `v` under `key`; other keys and the key order are unchanged, and a new key goes last |
| JsonValue.Truthy | app/ui/dialogs/mcp_server_dialog.py:84 | a value is falsy exactly when it is `None`, `False`, `0`, `""`, `[]` or `{}` |
| JsonValue.Slot | app/ui/tabs/experimental_features_tab.py:72 | `doc.get(key, {})` used as a dict: an absent key gives no entries, a dict value gives its entries, any other value fails, and so does a document that is not a dict |
| JsonValue.PyIn | app/ui/tabs/projects_tab.py:185 | Python's `in` on a stored value: membership for a list, substring for a text, key for a dict, and a raise for `None`, a boolean or a number |
| JsonValue.PyStr | app/ui/tabs/mcp_servers_tab.py:61 | `str()` of a string is the string, and of a boolean it is `True` or `False` |
| JsonValue.PyRepr | app/ui/tabs/mcp_servers_tab.py:61 | `repr` is non-empty: a string between two equal quotes, a list in brackets, a dict in braces, a number with a minus exactly when negative |
| JsonValue.StrRepr | app/ui/tabs/mcp_servers_tab.py:61 | a string's `repr` starts and ends with the same quote, the double quote exactly when the text holds a single quote and no double quote, and leaves no unprintable character raw |
| JsonValue.CharEscape | app/ui/tabs/mcp_servers_tab.py:61 | an unprintable character becomes `\x`, `\u` or `\U` followed by 2, 4 or 8 hex digits whose value is its code point, and the escape is itself printable |
| JsonValue.HexRoundTrip | app/ui/tabs/mcp_servers_tab.py:61 | reading back the hex digits of an escape gives the number written |
| JsonValue.ReprChar | app/ui/tabs/mcp_servers_tab.py:61 | each character's part of a `repr` is printable, and a printable character other than the backslash and the chosen quote stands for itself |
| JsonValue.ReprBodyPrintable | app/ui/tabs/mcp_servers_tab.py:61 | the text between the quotes of a `repr` holds no unprintable character |
| Files.FileName | app/ui/main_window.py:134 | a path's name is its part after the last `/`, with no `/` in it |
| Files.Suffix | app/ui/main_window.py:134 | a suffix is empty or a proper tail of the name that starts with `.` and has at least one more character |
| Files.ConfigWithSuffix | app/ui/main_window.py:134 | `with_suffix` on `~/.claude.json` replaces its `.json` |
| Files.ConfigBackupPaths | app/ui/main_window.py:133-135 | the backups are `.claude.json.bak` and `.claude.json.bak.<stamp>`, distinct from the settings file and from each other |
| Files.ReadOf | app/ui/main_window.py:110-112 | a read succeeds exactly when the file exists and opens, and then gives its content |
| Files.WriteOf | app/ui/main_window.py:138-139 | a write succeeds exactly when the file opens, and then sets the content of that one path |
| Files.CopyOf | app/ui/main_window.py:133-135 | a copy succeeds exactly when the source exists and both ends open, and then the destination holds the source's content |
| Files.FileSystem.Read | app/ui/main_window.py:111-112 | reading changes nothing and gives what `ReadOf` does |
| Files.FileSystem.Write | app/ui/main_window.py:138-139 | the files become what `WriteOf` gives; nothing changes on failure |
| Files.FileSystem.Copy | app/ui/main_window.py:133-135 | the files become what `CopyOf` gives; nothing changes on failure |
| MainWindow.LoadOf | app/ui/main_window.py:107-114 | a missing file loads as `{}`; an unreadable one fails; otherwise the result is the parse of the content, failing exactly when the parse fails |
| MainWindow.LoadedDoc | app/ui/main_window.py:107-127 | without the settings file the document becomes `{}`; a file that cannot be read or parsed leaves the previous document; otherwise the document is the parsed file |
| MainWindow.SaveOf | app/ui/main_window.py:129-143 | a save gets through exactly when the file opens and, if the file exists, its backup opens too; then the file holds the new text; no other path appears, disappears or changes |
| MainWindow.LoadMissingIsEmpty | app/ui/main_window.py:113-114 | without a settings file the document becomes `{}` |
| MainWindow.LoadFailureKeepsDoc | app/ui/main_window.py:125-127 | a file that cannot be read or parsed leaves the document as it was |
| MainWindow.SaveBacksUpThenWrites | app/ui/main_window.py:129-143 | a save succeeds exactly when the file and, if the file exists, the backup can be opened; then the file holds the new text and the backup the old file |
| MainWindow.SaveWithoutFileMakesNoBackup | app/ui/main_window.py:133 | without a settings file the backup is neither created nor changed |
| MainWindow.FailedBackupWritesNothing | app/ui/main_window.py:131-143 | a failed backup copy stops the save with every file unchanged |
| MainWindow.SaveTouchesOnlyFileAndBackup | app/ui/main_window.py:129-143 | no path other than the settings file and its backup changes |
| MainWindow.SaveThenLoad | app/ui/main_window.py:107-143 | with a codec that round-trips, loading after a successful save gives back the saved document |
| MainWindow.ConfigWindow.ConfigFile | app/ui/main_window.py:26 | the settings file is named `.claude.json` |
| MainWindow.ConfigWindow.constructor | app/ui/main_window.py:24-29 | the window starts from `{}` and loads the settings file |
| MainWindow.ConfigWindow.LoadConfig | app/ui/main_window.py:107-127 | the document becomes what loading gives, or stays as it was on failure, and the result says which |
| MainWindow.ConfigWindow.SaveConfigToFile | app/ui/main_window.py:129-143 | the files become what a backup-then-write of the serialized document gives, and the result says whether it got through |
| MainWindow.ConfigWindow.Commit | app/ui/tabs/projects_tab.py:132-133 | the document becomes the edited one, then it is saved |
| MainWindow.ConfigWindow.SetConfigData | app/ui/main_window.py:149-151 | the document is replaced wholesale and reads back as the new value |
| ProjectsTab.AddRepoTo | app/ui/tabs/projects_tab.py:126-130 | adding succeeds exactly when the document is a dict whose repository slot is a dict or absent; otherwise the wrong-shape error, as Python raises |
| ProjectsTab.Repos | app/ui/tabs/projects_tab.py:182 | the repository slot read as a dict: absent gives none, a dict gives its entries, any other value fails, and so does a document that is not a dict |
| ProjectsTab.PathsOf | app/ui/tabs/projects_tab.py:182-184 | a repository's stored value is found exactly when the slot is a dict holding the repository |
| ProjectsTab.DeleteRepoFrom | app/ui/tabs/projects_tab.py:156-159 | deleting succeeds exactly when the repository slot is a dict holding the repository |
| ProjectsTab.AddPathTo | app/ui/tabs/projects_tab.py:180-196 | the duplicate warning appears exactly when a folder was picked, the repository exists and Python's `in` says yes on its stored value: a list holding the folder, a text containing it or a dict with it as a key; the folder is appended exactly when the value is a list without it; a missing repository is reported as not found |
| ProjectsTab.RemovePathFrom | app/ui/tabs/projects_tab.py:220-225 | removal happens exactly when the repository exists and its list holds the folder |
| ProjectsTab.AddRepoEffect | app/ui/tabs/projects_tab.py:127-130 | the repository ends with an empty list, discarding any it had; a missing slot is created holding just it; every other repository and key is unchanged |
| ProjectsTab.DeleteRepoEffect | app/ui/tabs/projects_tab.py:157-159 | the repository is gone, the others are unchanged and in order, and no other key changes |
| ProjectsTab.AddPathEffect | app/ui/tabs/projects_tab.py:182-186 | the folder, previously absent, is appended at the end of its repository's list; nothing else changes |
| ProjectsTab.AddPathKeepsListDistinct | app/ui/tabs/projects_tab.py:185-186 | a list without repeats has none after a folder is added |
| ProjectsTab.RemovePathEffect | app/ui/tabs/projects_tab.py:222-225 | only the first occurrence of the folder leaves the list; nothing else changes |
| ProjectsTab.RepoRows | app/ui/tabs/projects_tab.py:90-95 | one row per repository in dict order, showing its name and `str(len(paths))`; none when some list has no length |
| ProjectsTab.LoadData | app/ui/tabs/projects_tab.py:85-98 | the row loop fills exactly the rows `RepoRows` describes |
| ProjectsTab.AddRepo | app/ui/tabs/projects_tab.py:119-137 | the window applies `AddRepoTo`: nothing changes on error, otherwise the document is replaced and saved |
| ProjectsTab.DeleteRepo | app/ui/tabs/projects_tab.py:139-166 | the window applies `DeleteRepoFrom` |
| ProjectsTab.AddPath | app/ui/tabs/projects_tab.py:168-196 | the window applies `AddPathTo` |
| ProjectsTab.RemovePath | app/ui/tabs/projects_tab.py:198-233 | the window applies `RemovePathFrom` |
| ServerDialog.ValidateForm | app/ui/dialogs/mcp_server_dialog.py:126-138 | accepted exactly when the stripped name and the stripped command are non-empty, and the name is checked first |
| ServerDialog.ParseArgs | app/ui/dialogs/mcp_server_dialog.py:146-153 | a blank argument line gives no arguments; otherwise, when `shlex` succeeds on the stripped line, its tokens |
| ServerDialog.BlankArgsAreEmpty | app/ui/dialogs/mcp_server_dialog.py:146-148 | a blank argument line gives no arguments, whatever the tokenizer |
| ServerDialog.FallbackArgsAreWords | app/ui/dialogs/mcp_server_dialog.py:150-153 | when `shlex` raises, every argument is a non-empty run without whitespace |
| ServerDialog.ArgsRoundTrip | app/ui/dialogs/mcp_server_dialog.py:146-153 | plain-word arguments shown joined by spaces read back as the same list when `shlex` raises or agrees |
| ServerDialog.EnvPair | app/ui/dialogs/mcp_server_dialog.py:158-165 | a row contributes exactly when it has both items and a non-blank key, and then contributes its stripped key and value |
| ServerDialog.EnvPairs | app/ui/dialogs/mcp_server_dialog.py:157-165 | the rows are read one candidate each, in table order |
| ServerDialog.EnvVars | app/ui/dialogs/mcp_server_dialog.py:156-165 | the variables have unique keys and each is the stripped key and value of some contributing row |
| ServerDialog.SingleRowSaved | app/ui/dialogs/mcp_server_dialog.py:156-165 | a single row with a non-blank key is saved as its stripped key and stripped value |
| ServerDialog.ServerDataOf | app/ui/dialogs/mcp_server_dialog.py:140-172 | the record holds the form's name and command stripped (non-empty when the form validated), the argument line as `ParseArgs` reads it and the env rows as `EnvVars` folds them, with unique keys |
| ServerDialog.ServerDataPromises | app/ui/dialogs/mcp_server_dialog.py:146-165 | the record has no arguments for a blank line, and a variable has a value exactly when the last row with both items and that stripped key gives it that stripped value |
| ServerDialog.EnvVarsLastRowWins | app/ui/dialogs/mcp_server_dialog.py:156-165 | a variable holds `v` exactly when the last contributing row for its key gives `v` |
| ServerDialog.EnvKeysStripped | app/ui/dialogs/mcp_server_dialog.py:156-165 | the variables' keys are unique, non-empty and already stripped |
| ServerDialog.GetServerData | app/ui/dialogs/mcp_server_dialog.py:140-172 | the row loop yields the stripped name and command, the parsed arguments and the folded variables |
| ServerDialog.JoinText | app/ui/dialogs/mcp_server_dialog.py:88-89 | a list of strings is shown as its items joined by single spaces |
| ServerDialog.CellText | app/ui/dialogs/mcp_server_dialog.py:112-117 | a string value shows as itself; a number in the 32-bit range or a boolean goes to the integer overload of `QTableWidgetItem` and shows an empty cell; `None`, a list, a dict or a number outside that range raises |
| ServerDialog.EnvRowsOf | app/ui/dialogs/mcp_server_dialog.py:91-93 | the table can be filled exactly when `env` is a dict whose every value can be put in a cell; then one row per variable, in order, with its key and that cell text, empty for a number or a boolean |
| ServerDialog.NumericEnvRow | app/ui/dialogs/mcp_server_dialog.py:91-117 | a variable holding a number shows as a row with its key and an empty value cell |
| ServerDialog.NumericEnvValueSavedEmpty | app/ui/dialogs/mcp_server_dialog.py:91-165 | a variable holding a number is shown empty and saved back as an empty string |
| ServerDialog.EnvRowsBlankNonText | app/ui/dialogs/mcp_server_dialog.py:91-165 | showing and then saving stripped, distinct variables keeps every text value and turns every number or boolean value into an empty string, order kept |
| ServerDialog.LoadForm | app/ui/dialogs/mcp_server_dialog.py:82-93 | a falsy entry gives an empty form and only a truthy one can fail; a shown entry is a dict, and the form has the dialog's name, the entry's `command` (default empty) as text, the arguments as `JoinText` joins them and the variables as `EnvRowsOf` shows them, one row each |
| ServerDialog.LoadData | app/ui/dialogs/mcp_server_dialog.py:82-93 | the row loop fills in exactly `LoadForm`: an empty form for a falsy entry, otherwise the name, the command, the arguments joined by spaces and one row per variable, a number or boolean value as an empty cell; nothing where Python raises |
| ServersTab.EntryShape | app/ui/tabs/mcp_servers_tab.py:78-84 | a written entry always has `command` and `args`, and has `env` exactly when there are variables |
| ServersTab.Servers | app/ui/tabs/mcp_servers_tab.py:52 | the server slot read as a dict: absent gives no servers, a dict gives its entries, any other value fails, and so does a document that is not a dict |
| ServersTab.EntryFor | app/ui/tabs/mcp_servers_tab.py:78-84 | a written entry is a dict with the unique keys `command`, `args` and, exactly when there are variables, `env`, in that order |
| ServersTab.AddServerTo | app/ui/tabs/mcp_servers_tab.py:74-84 | adding succeeds exactly when the document is a dict whose server slot is a dict or absent; otherwise the wrong-shape error |
| ServersTab.EditServerIn | app/ui/tabs/mcp_servers_tab.py:103-125 | editing succeeds exactly when the server slot is a dict holding the edited server and the dialog can show its stored entry; a server missing from the slot is reported as not found |
| ServersTab.DeleteServerFrom | app/ui/tabs/mcp_servers_tab.py:151-154 | deleting succeeds exactly when the server slot is a dict holding the server |
| ServersTab.AddServerEffect | app/ui/tabs/mcp_servers_tab.py:75-84 | the name holds exactly the new entry, with no merge; a missing slot is created; no other server or key changes |
| ServersTab.EditServerEffect | app/ui/tabs/mcp_servers_tab.py:115-125 | the new name holds exactly the new entry, overwriting any server of that name, and a changed old name is gone; other servers are unchanged; keeping the name keeps its place |
| ServersTab.DeleteServerEffect | app/ui/tabs/mcp_servers_tab.py:152-154 | only that server is removed |
| ServersTab.EditDialogRoundTrip | app/ui/tabs/mcp_servers_tab.py:108-113 | opening the dialog on a written entry and pressing OK gives back the same server, when its fields are stripped and its arguments are plain words |
| ServersTab.FormRoundTrip | app/ui/dialogs/mcp_server_dialog.py:126-172 | the form showing such a server passes validation and reads back as that server |
| ServersTab.EnvRoundTrip | app/ui/dialogs/mcp_server_dialog.py:155-165 | folding the rows shown for stripped, distinct variables gives back the same variables |
| ServersTab.LoadWrittenEntry | app/ui/dialogs/mcp_server_dialog.py:82-93 | the dialog opened on a written entry shows its command, its arguments joined by spaces and one row per variable |
| ServersTab.EnvText | app/ui/tabs/mcp_servers_tab.py:63-64 | the env column is empty exactly when there are no variables |
| ServersTab.RowFor | app/ui/tabs/mcp_servers_tab.py:59-65 | a row exists exactly when the entry is a dict, its `command` fits in a cell and its `env` is a dict; it shows the name, a text command as itself and a number or boolean as an empty cell, `str` of the `args` value (default an empty list), and the variables as `EnvText` lists them, empty exactly when there are none |
| ServersTab.EnvTextCons | app/ui/tabs/mcp_servers_tab.py:63-64 | with more variables after it, the first variable shows as `key=value` followed by `; ` and the column of the rest, so the pairs appear in dict order |
| ServersTab.NumericCommandShownEmpty | app/ui/tabs/mcp_servers_tab.py:60 | a numeric command shows as an empty cell in the table, while opening the dialog on that entry raises |
| ServersTab.ServerRows | app/ui/tabs/mcp_servers_tab.py:50-65 | one row per server, in dict order, each as `RowFor` shows it (a numeric or boolean command as an empty cell); no table exactly when the slot is not a dict or some entry cannot be shown |
| ServersTab.WrittenEntryRow | app/ui/tabs/mcp_servers_tab.py:59-65 | a written entry shows its command, the `repr` of its argument list and, without variables, an empty env column |
| ServersTab.LoadData | app/ui/tabs/mcp_servers_tab.py:50-65 | the row loop fills exactly the rows `ServerRows` describes |
| ServersTab.AddServer | app/ui/tabs/mcp_servers_tab.py:67-91 | the window applies `AddServerTo` |
| ServersTab.EditServer | app/ui/tabs/mcp_servers_tab.py:93-132 | the window applies `EditServerIn` |
| ServersTab.DeleteServer | app/ui/tabs/mcp_servers_tab.py:134-161 | the window applies `DeleteServerFrom` |
| FeaturesTab.CoerceCases | app/ui/tabs/experimental_features_tab.py:147-158 | `true`, `false`, `null` and `{}` are exactly the texts saved as `True`, `False`, `None` and `{}`; every other text, `N/A` included, stays that text |
| FeaturesTab.RenderCoerce | app/ui/tabs/experimental_features_tab.py:96-158 | showing a value and saving its text gives the same value exactly for `None`, `{}` and strings other than the four coerced words |
| FeaturesTab.Render | app/ui/tabs/experimental_features_tab.py:96 | `null` for `None`, the text itself for a string, `True`/`False` for a boolean, and for a number its digits with a minus exactly when negative |
| FeaturesTab.Coerce | app/ui/tabs/experimental_features_tab.py:146-158 | only `true`, `false`, `null` and `{}` turn into another value; any other text, `N/A` included, is saved as that very text |
| FeaturesTab.LoadedGates | app/ui/tabs/experimental_features_tab.py:71-85 | a document that is not a dict leaves the table as it was (Python raises); an absent slot empties it; otherwise one row per gate, in order, with its name, checked exactly when its value is truthy |
| FeaturesTab.LoadedFlags | app/ui/tabs/experimental_features_tab.py:87-97 | the table is kept when the gate lookup already raised; an absent slot empties it; otherwise one row per feature, in order, with its name and its value's text, `null` for `None` |
| FeaturesTab.LoadSaveTurnsTrueIntoText | app/ui/tabs/experimental_features_tab.py:96 | a boolean is shown as `True`/`False` and saved back as that text, not as a boolean |
| FeaturesTab.Toggled | app/ui/tabs/experimental_features_tab.py:113-118 | a double click on column 1 of a row with a check state flips that state and keeps the name; every other row is untouched, and another column, a row out of range or a cell without a check state changes nothing |
| FeaturesTab.ToggleTwice | app/ui/tabs/experimental_features_tab.py:113-118 | toggling the same cell twice restores the table; columns other than 1 and all other rows are left alone |
| FeaturesTab.SavedGates | app/ui/tabs/experimental_features_tab.py:126-133 | the saved gates have unique names, and each is the name and check state of some row that has both items |
| FeaturesTab.SavedFlags | app/ui/tabs/experimental_features_tab.py:138-160 | the saved features have unique names, and each is the name and coerced text of some row that has both items |
| FeaturesTab.SavedGateIsLastRow | app/ui/tabs/experimental_features_tab.py:126-133 | a gate is saved as checked exactly when the last row naming it with both items is checked |
| FeaturesTab.SavedGateNames | app/ui/tabs/experimental_features_tab.py:126-133 | the saved gates are exactly the names of rows with both items, each once |
| FeaturesTab.SavedFlagIsLastRow | app/ui/tabs/experimental_features_tab.py:138-160 | a feature is saved as the coercion of the text of the last row naming it with both items |
| FeaturesTab.LoadThenSaveGates | app/ui/tabs/experimental_features_tab.py:72-133 | saving a freshly loaded gate table stores each gate's truthiness as a boolean, in order |
| FeaturesTab.LoadThenSaveFlags | app/ui/tabs/experimental_features_tab.py:88-160 | saving a freshly loaded feature table stores each feature as the coercion of how it was shown, in order |
| FeaturesTab.SaveFeaturesTo | app/ui/tabs/experimental_features_tab.py:120-165 | the save succeeds exactly when the document is a dict |
| FeaturesTab.SaveFeaturesEffect | app/ui/tabs/experimental_features_tab.py:135-162 | the two feature dicts become exactly what the tables fold to, and every other key is untouched |
| FeaturesTab.Tab.LoadData | app/ui/tabs/experimental_features_tab.py:65-101 | the tables become what `LoadedGates`/`LoadedFlags` give: checked exactly when truthy, text by `str`, `None` as `null`; nothing changes where the lookup raises |
| FeaturesTab.Tab.ToggleGate | app/ui/tabs/experimental_features_tab.py:113-118 | the clicked gate flips between checked and unchecked, keeping its name, exactly when the click is on column 1 of a row with a check state; every other row and the whole feature table stay as they were |
| FeaturesTab.Tab.SaveFeatures | app/ui/tabs/experimental_features_tab.py:120-171 | the two row loops fold the tables, and the window applies `SaveFeaturesTo` |
| GeneralTab.ViewOf | app/ui/tabs/general_settings_tab.py:66-90 | the tab can show a document exactly when it is a dict whose `autoUpdates` (default false) is a boolean and whose `installMethod` (default unknown) is text |
| GeneralTab.MissingSettingsDefaults | app/ui/tabs/general_settings_tab.py:68-90 | an empty document shows as unchecked, install method unknown, nothing migrated, nothing attempted or installed |
| GeneralTab.LabelsFollowFlags | app/ui/tabs/general_settings_tab.py:72-90 | each migration label is done, and each marketplace label is yes, exactly when its flag is truthy |
| GeneralTab.SaveSettingsTo | app/ui/tabs/general_settings_tab.py:95-97 | the save succeeds exactly when the document is a dict |
| GeneralTab.SaveThenShow | app/ui/tabs/general_settings_tab.py:95-97 | saving changes `autoUpdates` alone, to the check box state, and the tab then shows that state with every other label as before |
| GeneralTab.ViewOfOtherKeys | app/ui/tabs/general_settings_tab.py:66-90 | documents that differ only in `autoUpdates` show the same labels |
| GeneralTab.SaveSettings | app/ui/tabs/general_settings_tab.py:92-102 | the window applies `SaveSettingsTo` |
| UserInfoTab.DaysHoursBounds | app/ui/tabs/user_info_tab.py:88-91 | the hours lie in 0..23, and the duration lies within the hour that the days and hours name, even when negative |
| UserInfoTab.DaysHours | app/ui/tabs/user_info_tab.py:88-90 | the hours lie in 0..23 and the days are negative exactly when the duration is |
| UserInfoTab.UsageLabel | app/ui/tabs/user_info_tab.py:91 | the usage label is never the unknown label, and starts with a minus exactly when the duration is negative |
| UserInfoTab.TimeLabels | app/ui/tabs/user_info_tab.py:76-97 | the labels fail exactly for a truthy start time that is not text; a falsy one shows unknown twice; the usage is unknown exactly when no time was parsed, and then an unparsed text is shown as the start time |
| UserInfoTab.ViewOf | app/ui/tabs/user_info_tab.py:71-97 | the tab fails to show a document exactly when it is not a dict, its `userID` is not text, or its `firstStartTime` is truthy but not text; a missing id shows as unknown, a present one as itself |
| UserInfoTab.ReplaceZ | app/ui/tabs/user_info_tab.py:80 | no `Z` is left, and a text without `Z` is unchanged |
| UserInfoTab.MissingInfoIsUnknown | app/ui/tabs/user_info_tab.py:73-97 | a missing user id and a missing or empty first start time all show as unknown |
| UserInfoTab.ParsedStartShowsUsage | app/ui/tabs/user_info_tab.py:76-91 | a start time that parses shows its formatted time and the days and hours since |
| UserInfoTab.ParsedTimeLabels | app/ui/tabs/user_info_tab.py:77-91 | the labels of a parsing start time are its formatted time and its usage |
| UserInfoTab.DefaultConfigShows | app/ui/tabs/user_info_tab.py:172-177 | the reset document has exactly four keys, no servers, no repositories, and shows updates off and a native install |
| UserInfoTab.DefaultConfigEntries | app/ui/tabs/user_info_tab.py:172-177 | what each of the four keys of the reset document holds |
| UserInfoTab.DefaultConfig | app/ui/tabs/user_info_tab.py:172-177 | the reset document is a dict with exactly the keys `installMethod`, `autoUpdates`, `mcpServers` and `githubRepoPaths`, each once, in that order |
| UserInfoTab.ReplaceOf | app/ui/tabs/user_info_tab.py:137-145 | a failed backup changes nothing; otherwise the document becomes the new value, and after a complete save the settings file holds its serialization |
| UserInfoTab.ImportOf | app/ui/tabs/user_info_tab.py:133-153 | a failed import leaves the document and the files as they were; an unreadable file is refused as denied and a missing one as not found; a successful one took its document from the parsed file |
| UserInfoTab.ResetOf | app/ui/tabs/user_info_tab.py:164-185 | a failure is the backup failure with nothing changed; on success the document is the reset document, and after a complete save the settings file holds its serialization |
| UserInfoTab.ExportOf | app/ui/tabs/user_info_tab.py:107-115 | the export goes through exactly when the chosen file opens; it then holds the serialized document and every other file is unchanged |
| UserInfoTab.ImportFailureChangesNothing | app/ui/tabs/user_info_tab.py:133-153 | an import that cannot read or parse its file, or cannot back up, changes neither the document nor any file |
| UserInfoTab.ImportBacksUpThenWrites | app/ui/tabs/user_info_tab.py:133-145 | after a complete import the document is the parsed file, the settings file holds it and `.json.bak` holds the previous file |
| UserInfoTab.ResetBacksUp | app/ui/tabs/user_info_tab.py:164-180 | after a complete reset the file holds the default document and the stamped backup the previous file, which the final save also copies to `.json.bak`; without a file no stamped backup appears |
| UserInfoTab.FailedResetChangesNothing | app/ui/tabs/user_info_tab.py:164-185 | a reset whose stamped backup fails changes nothing |
| UserInfoTab.ExportThenImport | app/ui/tabs/user_info_tab.py:107-145 | with a codec that round-trips, importing an exported file restores the exported document, unless the backup fails |
| UserInfoTab.Export | app/ui/tabs/user_info_tab.py:107-115 | the chosen file receives the serialized document; nothing changes when the write fails |
| UserInfoTab.BackUp | app/ui/tabs/user_info_tab.py:139-141 | the settings file, when it exists, is copied to the backup; false exactly when the copy fails |
| UserInfoTab.Import | app/ui/tabs/user_info_tab.py:117-153 | the window's document and files end as `ImportOf` says |
| UserInfoTab.Reset | app/ui/tabs/user_info_tab.py:155-185 | the window's document and files end as `ResetOf` says |
| RawConfigTab.ParsedEdit | app/ui/tabs/raw_config_tab.py:65-66 | the edit succeeds exactly when the text parses, with the parsed value |
| RawConfigTab.Formatted | app/ui/tabs/raw_config_tab.py:81-90 | text that does not parse is kept; with a codec that round-trips, the result parses to what the text parsed to |
| RawConfigTab.TextAfterSave | app/ui/tabs/raw_config_tab.py:62-72 | the editor keeps its text unless the save got through; any new text is the serialized document, which parses back to it when the codec round-trips |
| RawConfigTab.FormatIdempotent | app/ui/tabs/raw_config_tab.py:81-90 | formatting twice is formatting once, when the codec round-trips |
| RawConfigTab.FormatKeepsValue | app/ui/tabs/raw_config_tab.py:84-87 | formatted text parses to the same value as the text did |
| RawConfigTab.SavedTextIsFormatted | app/ui/tabs/raw_config_tab.py:62-72 | after a save that refreshed the views, the editor shows the formatted input, which parses to the saved document |
| RawConfigTab.Tab.LoadData | app/ui/tabs/raw_config_tab.py:53-56 | the editor shows the serialized document |
| RawConfigTab.Tab.FormatJson | app/ui/tabs/raw_config_tab.py:81-90 | the text becomes its reformatting, or stays as it was when it does not parse |
| RawConfigTab.Tab.SaveConfig | app/ui/tabs/raw_config_tab.py:62-79 | text that does not parse changes nothing; otherwise the parsed value replaces the document and is saved, and the text is refreshed only after a save and a general-tab refresh that got through |
| RepoDialog.ValidateRepoName | app/ui/dialogs/repo_dialog.py:35-48 | a name is accepted exactly when the stripped text is non-empty and contains `/`, and the stripped text is returned; emptiness is reported first |
| RepoDialog.AcceptedNameIsStripped | app/ui/dialogs/repo_dialog.py:46-48 | an accepted name has no surrounding whitespace and is accepted again as itself |
| RepoDialog.BlankNameRejected | app/ui/dialogs/repo_dialog.py:37-40 | a blank field is rejected as empty |
| RepoDialog.SlashAloneAccepted | app/ui/dialogs/repo_dialog.py:41-44 | a bare `/` passes the check |
| RepoDialog.NestedNameAccepted | app/ui/dialogs/repo_dialog.py:41-44 | `a/b/c` passes the check |
| RepoDialog.NameWithoutSlashRejected | app/ui/dialogs/repo_dialog.py:41-43 | `repo` is rejected for its missing slash |
| RepoDialog.PaddedNameAccepted | app/ui/dialogs/repo_dialog.py:37-48 | ` a/b ` is accepted as `a/b` |
| JsonPatterns.MatchAt | app/ui/widgets/json_highlighter.py:42-59 | every pattern match is non-empty and lies inside the text |
| JsonPatterns.FindAll | app/ui/widgets/json_highlighter.py:42-59 | `finditer`'s spans lie in the text, left to right, without overlap |
| JsonPatterns.FindAllMatches | app/ui/widgets/json_highlighter.py:42-59 | every span found is a match of its pattern at its start |
| JsonPatterns.FindAllComplete | app/ui/widgets/json_highlighter.py:42-59 | every position where the pattern matches starts a found span or lies inside an earlier one |
| JsonPatterns.FindAllSkips | app/ui/widgets/json_highlighter.py:42-59 | positions where the pattern does not match are passed over |
| JsonPatterns.FindAllSound | app/ui/widgets/json_highlighter.py:42-59 | no span starts where the pattern does not match |
| JsonPatterns.Scan | app/ui/widgets/json_highlighter.py:42-59 | the spans found from a position on lie in the text after it, left to right, without overlap |
| JsonPatterns.LiteralAt | app/ui/widgets/json_highlighter.py:42 | a literal match is one of the words `true`, `false`, `null` with a word boundary on both sides, and `null` between boundaries always matches |
| JsonPatterns.KeyAt | app/ui/widgets/json_highlighter.py:46 | a key match has at least four characters, starts with a quote and ends with a colon; nothing matches elsewhere than at a quote |
| JsonPatterns.StringValueAt | app/ui/widgets/json_highlighter.py:50 | a string-value match has at least three characters, starts with a colon and ends with a quote; nothing matches elsewhere than at a colon |
| JsonPatterns.NumberAt | app/ui/widgets/json_highlighter.py:54 | a number match has at least two characters and starts with a colon; nothing matches elsewhere than at a colon |
| JsonPatterns.GeneralAt | app/ui/widgets/json_highlighter.py:59 | a generic string match runs from a quote to the next quote; there is none exactly when the start is not a quote or no quote follows |
| JsonPatterns.LiteralIff | app/ui/widgets/json_highlighter.py:42-43 | the literal pattern matches exactly a whole word `true`, `false` or `null` with a word boundary on both sides |
| JsonPatterns.KeyShape | app/ui/widgets/json_highlighter.py:46-47 | a key match is a quote, a non-empty name without quotes, a quote, whitespace and a colon (the shape `KeyShaped` spells out); so `"":` never matches |
| JsonPatterns.KeyIff | app/ui/widgets/json_highlighter.py:46 | the key pattern matches `[i, e)` exactly when that span has the key's shape |
| JsonPatterns.KeyOfShape | app/ui/widgets/json_highlighter.py:46 | every span of the key's shape is the match the key pattern finds at its start |
| JsonPatterns.KeyThenValue | app/ui/widgets/json_highlighter.py:46-51 | at the colon ending a key, a string value matches exactly when a quoted text follows the whitespace |
| JsonPatterns.StringValueIff | app/ui/widgets/json_highlighter.py:50 | the string-value pattern matches `[i, e)` exactly when it is a colon, whitespace, a quote, text without quotes and a quote |
| JsonPatterns.GeneralIff | app/ui/widgets/json_highlighter.py:59 | the generic string pattern matches `[i, e)` exactly when it is a quote, text without quotes and a quote |
| JsonPatterns.NumberEnd | app/ui/widgets/json_highlighter.py:54 | a number match is non-empty and inside the text |
| JsonPatterns.LongestNumberIsLongest | app/ui/widgets/json_highlighter.py:54 | the reference automaton's maximal munch gives the longest prefix it accepts, or none when it accepts none |
| JsonPatterns.NumberIsLongest | app/ui/widgets/json_highlighter.py:54-55 | the regex engine's greedy reading of the number pattern ends where the longest accepted number ends |
| JsonPatterns.NumberRejects | app/ui/widgets/json_highlighter.py:54 | no number starts with `+`, `.` or `e` |
| JsonHighlighter.SetFormatOf | app/ui/widgets/json_highlighter.py:43 | `setFormat` writes the category on the part of the span inside the block, and nothing elsewhere |
| JsonHighlighter.PaintAll | app/ui/widgets/json_highlighter.py:42-55 | after painting some of the matches, every position they cover holds the category, and every position that changed holds it |
| JsonHighlighter.SweepOf | app/ui/widgets/json_highlighter.py:42-55 | after one overwriting sweep every position its pattern covers holds the category, and every position that changed holds it |
| JsonHighlighter.PaintIfClear | app/ui/widgets/json_highlighter.py:59-68 | the write-if-clear sweep never changes a formatted position, and every position it changes gets the generic category |
| JsonHighlighter.FirstFour | app/ui/widgets/json_highlighter.py:42-55 | the first four sweeps never write the generic category |
| JsonHighlighter.Highlight | app/ui/widgets/json_highlighter.py:39-68 | every position the first four sweeps formatted keeps that format, and every position the last sweep changes gets the generic category |
| JsonHighlighter.PaintAllAt | app/ui/widgets/json_highlighter.py:42-55 | after an overwriting sweep a position holds the category exactly when a span covers it, and is untouched otherwise |
| JsonHighlighter.SweepOfAt | app/ui/widgets/json_highlighter.py:42-55 | after one of the first four sweeps, exactly the positions its pattern covers hold its category |
| JsonHighlighter.PaintIfClearAt | app/ui/widgets/json_highlighter.py:59-68 | after the last sweep a position holds the generic category exactly when it lies in a span that was entirely clear before the sweep |
| JsonHighlighter.PaintIfClearSpan | app/ui/widgets/json_highlighter.py:59-68 | a generic span is written entirely when it was clear and left entirely as it was otherwise |
| JsonHighlighter.NoneClearKeeps | app/ui/widgets/json_highlighter.py:59-68 | when no generic span is entirely clear, the last sweep writes nothing |
| JsonHighlighter.LatestSweepWins | app/ui/widgets/json_highlighter.py:42-55 | after the first four sweeps a position holds the category of the latest sweep that covers it, or nothing |
| JsonHighlighter.GeneralOnlyWhereClear | app/ui/widgets/json_highlighter.py:59-68 | the last sweep writes only where none of the first four did; a position stays unformatted exactly when no sweep covers it |
| JsonHighlighter.GeneralAllOrNothing | app/ui/widgets/json_highlighter.py:59-68 | a generic string match is never written in part |
| JsonHighlighter.NothingClearKeepsFirstFour | app/ui/widgets/json_highlighter.py:59-68 | when every generic match starts on a formatted character, the last sweep changes nothing |
| JsonHighlighter.KeyValueKeys | app/ui/widgets/json_highlighter.py:46 | in `"k": "v"` the key pattern matches `"k":` only |
| JsonHighlighter.KeyValueStrings | app/ui/widgets/json_highlighter.py:50 | in `"k": "v"` the string-value pattern matches from the colon to the closing quote |
| JsonHighlighter.KeyValueGeneral | app/ui/widgets/json_highlighter.py:59 | in `"k": "v"` both quoted texts are generic string matches |
| JsonHighlighter.KeyValueExample | app/ui/widgets/json_highlighter.py:39-68 | `"k": "v"` ends with positions 0-2 as Key and 3-7, the colon included, as StringValue |
| JsonHighlighter.Highlighter.SetFormat | app/ui/widgets/json_highlighter.py:43 | the buffer becomes what `SetFormatOf` gives |
| JsonHighlighter.Highlighter.Sweep | app/ui/widgets/json_highlighter.py:42-55 | the loop over the matches leaves the buffer as the overwriting sweep of that pattern |
| JsonHighlighter.Highlighter.PaintSpans | app/ui/widgets/json_highlighter.py:42-55 | the loop writes each match in turn and leaves the buffer as `PaintAll` over all of them |
| JsonHighlighter.Highlighter.AlreadyHighlighted | app/ui/widgets/json_highlighter.py:60-65 | the scan answers true exactly when some position of the span is formatted |
| JsonHighlighter.Highlighter.SweepIfClear | app/ui/widgets/json_highlighter.py:59-68 | the loop over the generic matches leaves the buffer as the write-if-clear sweep |
| JsonHighlighter.Highlighter.WriteAllIfClear | app/ui/widgets/json_highlighter.py:59-68 | the loop leaves the buffer as `PaintIfClear` over all the generic matches |
| JsonHighlighter.Highlighter.WriteIfClear | app/ui/widgets/json_highlighter.py:60-68 | a match is written entirely when none of its positions is formatted, and the buffer is unchanged otherwise |
| JsonHighlighter.Highlighter.HighlightBlock | app/ui/widgets/json_highlighter.py:39-68 | the five sweeps on a fresh buffer leave exactly `Highlight(text)` |
| LegacyWindow.ServerDataOrError | main_old.py:1036-1074 | the old dialog data fails exactly when the new dialog would refuse the form, the name first and with the same messages, and otherwise agrees with the new dialog |
| LegacyWindow.ServerDataStripped | main_old.py:1038-1044 | the data handed back has a non-empty, stripped name and command |
| LegacyWindow.GetServerData | main_old.py:1036-1074 | the checks and the row loop give `ServerDataOrError` |
| LegacyWindow.AddMcpServerTo | main_old.py:818-839 | adding succeeds exactly when the form is valid and the slot is a dict; an invalid form raises before anything changes |
| LegacyWindow.EditMcpServerIn | main_old.py:841-877 | editing succeeds exactly when the server is present, the dialog can show its stored entry and the form is valid; an absent server or an entry the dialog cannot show is refused before the form is looked at |
| LegacyWindow.ServerEditsAgree | main_old.py:818-877 | on a valid form the old add and edit make the same document as the tab's; on an invalid one they change nothing |
| LegacyWindow.AddAgrees | main_old.py:818-839 | on a valid form the old add gives the same result as the tab's add of the dialog's data |
| LegacyWindow.EditAgrees | main_old.py:841-877 | on a valid form the old edit gives the same result as the tab's edit with the dialog's data |
| LegacyWindow.AddMcpServer | main_old.py:818-839 | the window applies `AddMcpServerTo` |
| LegacyWindow.EditMcpServer | main_old.py:841-877 | the window applies `EditMcpServerIn` |
| LegacyWindow.DeleteMcpServer | main_old.py:879-904 | the window applies the tab's `DeleteServerFrom` |
| LegacyWindow.AddRepo | main_old.py:594-609 | the window applies the tab's `AddRepoTo` |
| LegacyWindow.DeleteRepo | main_old.py:611-636 | the window applies the tab's `DeleteRepoFrom` |
| LegacyWindow.AddPath | main_old.py:638-664 | the window applies the tab's `AddPathTo` |
| LegacyWindow.RemovePath | main_old.py:666-699 | the window applies the tab's `RemovePathFrom` |
| LegacyWindow.SaveGeneralSettings | main_old.py:534-542 | the window applies the tab's `SaveSettingsTo` |
| LegacyWindow.SaveExperimentalFeatures | main_old.py:544-592 | the window applies the tab's `SaveFeaturesTo` to the two tables |
| LegacyWindow.SaveRawConfig | main_old.py:785-805 | the window applies `ParsedEdit`, and the text editor keeps its text |
| LegacyWindow.ReloadAfterReplace | main_old.py:743-748 | with a codec that round-trips, reading back what a replacement saved changes nothing |
| LegacyWindow.ReloadIsRedundant | main_old.py:718-783 | with a codec that round-trips, the old import and reset end exactly as the tab's versions do |
| LegacyWindow.Reloaded | main_old.py:748 | the reload changes no file and no result, does nothing after an incomplete save, and keeps the document when the file holds its serialization and the codec round-trips |
| LegacyWindow.LegacyImportOf | main_old.py:718-753 | the old import ends with the files and the result of the tab's import; a failure changes nothing |
| LegacyWindow.LegacyResetOf | main_old.py:755-783 | the old reset ends with the files and the result of the tab's reset; a failure is the backup failure with nothing changed |
| LegacyWindow.ImportConfig | main_old.py:718-753 | the window ends as `LegacyImportOf` says: the import, then a reload after a save that got through |
| LegacyWindow.ResetConfig | main_old.py:755-783 | the window ends as `LegacyResetOf` says |

## Left out

- Qt widgets, layout, message boxes, the status bar, colours and fonts are not modelled. Neither are `blockSignals` and the empty `itemChanged` handlers. The highlight formats are the enum `Category`.
- Table selection is a parameter: the selected server, repository or folder is passed in. So the "select first" warnings are not modelled.
- The file and folder pickers and the yes/no confirmations are inputs. A picked path is a parameter, a cancelled folder picker gives `""`, and a "No" answer means the method is not called.
- The path table of the projects tab (`on_repo_selected`, app/ui/tabs/projects_tab.py:100-117) only displays data and is not modelled.
- The refresh that follows each edit (`load_data` of the tabs and of the raw view) is modelled per tab, not as a chained call. It runs only after the save, and by then the document is already final.
- MainWindow.ConfigWindow.LoadConfig: its result covers reading and parsing the file only; a tab whose `load_data` raises during the refresh that follows (app/ui/main_window.py:117-127, for instance on an `mcpServers` value that is not a dict) is not reported as a failure, and the tabs after it keep their old contents.
- `shlex.split` is a foreign call. It is the `Tokenizer` parameter, with `None` standing for its `ValueError`; only the `str.split()` fallback is modelled.
- The `json` module is the `Codec` parameter (`dump`, `load`). `Lawful(codec)`, its round trip, is a hypothesis of the lemmas that need it. JSON text syntax and floating-point numbers are not modelled; numbers are integers.
- `datetime.fromisoformat`, `astimezone`, `now()` and `strftime` form the `Clock` parameter, and the reset's time stamp is a string parameter. Only the split of a duration into days and hours is modelled.
- `shutil.copy2` copies content only; file metadata is not modelled.
- File writes are modelled as atomic. A `json.dump` that fails halfway, leaving a truncated file, is not modelled.
- File encodings are not modelled.
- The regular expressions use ASCII `\d` and `\w`. Python also matches Unicode digits and letters there for `str` patterns.
- `QTextCharFormat` equality is reduced to "has a category or not".
- `GeneralTab.ViewOf` treats an `autoUpdates` value that is not a boolean as raising in `setChecked`. Qt's conversion of such values is not modelled.
- Application start-up (`main.py`, main_old.py:1118-1134) is not part of this model.
- JsonHighlighter.Highlight: positions are Unicode code points. Qt's `setFormat` and `format` count UTF-16 code units, so in a block with characters outside the Basic Multilingual Plane the program's formats sit at shifted positions; that shift is not modelled.
- JsonHighlighter.Highlighter.HighlightBlock: the format buffer is indexed by code point, as in `Highlight`; the UTF-16 offsets Qt uses are not modelled.
- JsonValue.PyStr: `repr` of a string (`StrRepr`) escapes control characters, U+007F to U+00A0, U+00AD and whitespace other than the space. Python's `str.isprintable` also rejects the other format, separator, private-use, surrogate and unassigned characters; without a Unicode database the model keeps those as they are.
- ServerDialog.CellText: a number or boolean cell is taken to select the integer overload of `QTableWidgetItem` and show an empty text, and a `None`, list or dict value to raise; PySide's overload resolution itself is not modelled.
