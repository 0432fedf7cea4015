# dbgoat: a verified model of its command builder and dump transformer

dbgoat is a small Python toolkit for administering MySQL databases through
the `mysql` and `mysqldump` command-line clients. This project models its two
text engines and the helpers around them, and proves properties of the model:

- **The argv builder** (`buildCommand` in `dbgoat/auxiliar.py`, with its twin in
  `dbpal/dbpal.py`). The command starts with the client program. The stored options are
  merged with the per-call options using Python's `dict.copy()` + `update()`
  semantics. Each merged entry is then rendered by one of three rules:
  - a known option whose value is truthy gives `flag=value`; a falsy one gives the bare flag;
  - a `__` key that is not a known option has its underscores turned into dashes;
    `key=value` unless the value is `None`, which gives the bare key;
  - any other key is positional: its value is flattened depth first.
- **The dump transformer** (`transformDump` in `dbgoat/admin.py`). It returns
  ValueError unless the dump holds exactly one `CREATE DATABASE|SCHEMA …;\n`
  statement (non-overlapping, leftmost matches) and at least one
  ``USE name;\n`` / ``USE `name`;\n`` statement. It takes the database name
  from the first `USE`. When a non-empty override is given that differs from that name,
  every occurrence of the name is replaced by the override. Finally it drops
  every line holding a `DROP … IF EXISTS …;`, `CREATE DATABASE|SCHEMA …;` or
  `USE …;` statement and joins the remaining lines with `\n`.
- **Starting a process** (`runShellCommand` in `dbgoat/auxiliar.py`, and the
  `subprocess.run` calls of dbpal). `subprocess.run` raises TypeError when an
  argument or an environment value is not a string, and FileNotFoundError
  when, without a shell, the program is not found. The programs the system
  finds are a parameter.
- **dbgoat's administrator** (`DBAdmin` / `MySQLDBAdmin`):
  - credential sanitisation;
  - the tool and flag tables;
  - `issueCommand`, which takes the password out of the options, passes it in
    `MYSQL_PWD`, starts the process and only then puts the password back at
    the end of the options;
  - the option sets of `export`, `backup` and `restore`, and the export
    file-name rule.
- **dbpal's administrator**: the same tables and renderer, the `create`,
  `delete`, `backup` and `export` commands, and the shell lines of `restore`
  (the client command with `< file`) and `rename` (a dump piped into the
  client), each joined with single spaces. Both of these start with
  `create`; when it raises, nothing else happens, and when it starts, the
  joins cannot raise.

Python values are modelled as `Value = Null | Int | Str | List`, with Python's
truthiness written out. A dict is the sequence of its entries in insertion
order. An exception is the `Failure` of a `Result`. The modules follow the
program:

| module | file | models |
|---|---|---|
| `Values`, `Wrappers` | `values.dfy`, `wrappers.dfy` | Python values, truthiness, f-string formatting of scalars, exceptions |
| `Strings`, `OrderedDicts` | `strings.dfy`, `dicts.dfy` | `startswith`, `endswith`, `split`, `join`, `replace`; dict `d[k] = v`, `update`, `pop` |
| `Auxiliar` | `auxiliar.dfy` | `buildCommand`, `flatAppend`, `getDictItem` |
| `MySql` | `mysql.dfy` | the tool and flag tables and the export file-name rule, which both administrators share |
| `Dump` | `dump.dfy` | `transformDump` and `hasPattern` |
| `GoatAdmin` | `goat_admin.dfy` | dbgoat's `DBAdmin` / `MySQLDBAdmin` |
| `PalAdmin` | `pal_admin.dfy` | dbpal's `DBAdmin` / `MySQLDBAdmin` |

Three behaviours of the code worth knowing:

- The result of `transformDump` has no trailing newline. `'\n'.join` of the
  kept lines drops the final line break, so the dump's last line comes back
  without its `\n` (`Dump.TransformDumpExample`).
- Filtering is idempotent on the line list (`Dump.KeepLinesIdempotent`). It is
  not idempotent on the text when the last kept line is blank
  (`Dump.StripLifecycleNotIdempotent`).
- In dbgoat's `issueCommand`, the password is assigned back only after the
  command has been built and started. An unknown tool raises KeyError in
  between (`GoatAdmin.IssueUnknownToolLosesPassword`). So does a process that
  `subprocess.run` cannot start, such as a password that is an integer
  (`GoatAdmin.IssueLaunchFails`, `GoatAdmin.ExportIntPasswordLost`). Either
  way the password stays out of the options, and every later command raises
  KeyError('password').

## Model

| member | source | states |
|---|---|---|
| Auxiliar.FlatAppend | dbgoat/auxiliar.py:31-39 | appending `something` to the list appends exactly its depth-first leaves, in order |
| Auxiliar.BuildCommand | dbgoat/auxiliar.py:23-57 | the loop over the merged options produces the command the renderer specifies: the executable, then each entry's tokens in iteration order |
| Auxiliar.FlattenItemsConcat | dbgoat/auxiliar.py:31-39 | flattening a list of items is the concatenation of the flattenings of its parts |
| Auxiliar.FlattenLeaves | dbgoat/auxiliar.py:31-39 | a list of non-list leaves flattens to itself |
| Auxiliar.FlattenIdempotent | dbgoat/auxiliar.py:31-39 | flattening an already flattened value changes nothing |
| Auxiliar.FlattenLength | dbgoat/auxiliar.py:31-39 | a positional value contributes exactly one token per non-list leaf (an empty list none, a scalar one) |
| Auxiliar.FlattenExample | dbgoat/auxiliar.py:31-39 | `[['a', 'b'], 'c']` flattens to `a`, `b`, `c` |
| Auxiliar.RenderConcat | dbgoat/auxiliar.py:42-55 | the tokens of two consecutive groups of entries are the tokens of the first group followed by those of the second |
| Auxiliar.RenderLength | dbgoat/auxiliar.py:42-55 | the number of tokens is one per known-flag or `__` entry plus the leaf count of each positional value |
| Auxiliar.BuildLength | dbgoat/auxiliar.py:23-57 | the first token is the executable; the command has 1 + (the width of the merged options) tokens, so no entry is dropped |
| Auxiliar.BuildAround | dbgoat/auxiliar.py:42-55 | every merged entry contributes its own tokens at its own place: the entries before it, the entry, the entries after it |
| Auxiliar.OverrideWins | dbgoat/auxiliar.py:28-55 | a key passed per call is rendered once, from the per-call value, at the position the key has in the merged dict; the stored value is not rendered |
| Auxiliar.BuildFresh | dbgoat/auxiliar.py:28-55 | per-call options that share no key with the stored ones are rendered after all stored options, in their own order |
| Auxiliar.KnownFlagEntryTruthiness | dbgoat/auxiliar.py:43-47 | a known key renders `flag=value` when the value is truthy and the bare flag when it is `None`, `0`, `""` or `[]` |
| Auxiliar.PatternEntryNullness | dbgoat/auxiliar.py:48-53 | an unknown `__` key renders `dashed=value` for every value but `None` (including `0`), and the bare dashed key for `None` |
| Auxiliar.KnownFlagFirst | dbgoat/auxiliar.py:43-48 | a known key that starts with `__` is still rendered by the flag rule, never by the `__` rule |
| Auxiliar.DashedSpec | dbgoat/auxiliar.py:48-49 | the dashed key has the same length and every `_` turned into `-` and nothing else changed; a leading `__` becomes `--` |
| Auxiliar.RenderSingle | dbgoat/auxiliar.py:42-55 | a dict of one entry renders as that entry's tokens |
| Auxiliar.RenderCons | dbgoat/auxiliar.py:42-55 | an entry in front of a dict renders before the dict's tokens |
| Auxiliar.NonPositionalStr | dbgoat/auxiliar.py:43-53 | a known-flag or `__` entry always renders as string tokens |
| Auxiliar.RenderAllStr | dbgoat/auxiliar.py:42-55 | the command's option tokens are all strings exactly when every entry's tokens are |
| Auxiliar.UpdateStrEntries | dbgoat/auxiliar.py:28-55 | merging options whose entries render as strings gives options whose entries render as strings |
| Auxiliar.LaunchError | dbgoat/auxiliar.py:11-20 | `subprocess.run` raises nothing exactly when the environment values and arguments are strings and, without a shell, the program is found; otherwise TypeError, or FileNotFoundError naming the program |
| Auxiliar.ReduceConcat | dbgoat/auxiliar.py:7-8 | the lookup along `p + q` is the lookup along `p` continued along `q`, with the first failure as the result |
| Auxiliar.GetDictItemSegment | dbgoat/auxiliar.py:7-8 | a path without a dot is one subscript: the entry, KeyError for a missing key, TypeError on a non-dict |
| Auxiliar.GetDictItemCompose | dbgoat/auxiliar.py:7-8 | `getDictItem("p.q", d)` is `q` looked up in the result of `getDictItem("p", d)`, e.g. `"a.b"` gives `d["a"]["b"]` |
| OrderedDicts.UpdateKeys | dbgoat/auxiliar.py:28-29 | the merged keys are the stored keys in their order, then the new per-call keys in per-call order |
| OrderedDicts.UpdateGet | dbgoat/auxiliar.py:28-29 | a key reads its per-call value when passed per call and its stored value otherwise |
| OrderedDicts.UpdateOverride | dbgoat/auxiliar.py:28-29 | a per-call key occurs exactly once in the merged dict, with the per-call value |
| OrderedDicts.UpdateFresh | dbgoat/auxiliar.py:28-29 | per-call options with no stored key are appended after the stored ones |
| OrderedDicts.UpdateDistinct | dbgoat/auxiliar.py:28-29 | merging keeps keys unique |
| OrderedDicts.RemoveGet | dbgoat/admin.py:100-100 | after `pop('password')` the password reads as absent and every other key as before |
| OrderedDicts.PopReinsert | dbgoat/admin.py:100-108 | popping a key and assigning it back gives the same key-to-value map, with the key moved to the end |
| MySql.FlagsAreLong | dbgoat/admin.py:160-169 | every known option is spelled as a long `--` flag, and no known option is a `__` key |
| MySql.ToolPrograms | dbgoat/admin.py:154-158 | `main` runs `mysql` and `export` runs `mysqldump` |
| MySql.FlagEntries | dbgoat/admin.py:160-169 | the spellings of host, port, user, statement, database, databases and output; the `__` keys and `db_name` are not known options |
| MySql.DashedExportKeys | dbgoat/admin.py:336-336 | `__column_statistics` renders as `--column-statistics` and `__all_databases` as `--all-databases` |
| MySql.KnownFlagEntry | dbgoat/auxiliar.py:43-45 | a known option with a truthy scalar renders as the single token `flag=value` |
| MySql.ExportFileName | dbgoat/admin.py:327-331 | the export file name always ends in `.sql` |
| MySql.ExportFileNameSpec | dbgoat/admin.py:327-331 | the file name defaults to the database name, gets `.sql` appended exactly when it lacks that suffix, and starts with the given name |
| MySql.ExportFileNameIdempotent | dbpal/dbpal.py:158-162 | normalising an already normalised name leaves it unchanged, whichever database is named |
| Dump.CreateMatchSound | dbgoat/admin.py:247-247 | a CREATE match is `CREATE SCHEMA ` or `CREATE DATABASE `, one or more characters that are neither `;` nor a line break, then `;\n` |
| Dump.CreateMatchComplete | dbgoat/admin.py:247-247 | every CREATE statement at a position is found as the match at that position |
| Dump.CountCreateZero | dbgoat/admin.py:247-251 | the count of CREATE matches is zero exactly when no position holds a CREATE statement |
| Dump.CountCreateMultiple | dbgoat/admin.py:247-249 | the count is at least two exactly when one CREATE statement starts at or after the end of another |
| Dump.UseMatchIff | dbgoat/admin.py:255-255 | the USE match at a position is exactly a `USE name;\n` or ``USE `name`;\n`` with balanced backticks and a name free of backticks, `;` and line breaks |
| Dump.FirstUse | dbgoat/admin.py:255-263 | the first USE match is the leftmost one, and none means no position matches |
| Dump.FirstUseNone | dbgoat/admin.py:255-260 | no first USE match exactly when the text holds no USE statement |
| Dump.HasPatternIff | dbgoat/admin.py:272-282 | `hasPattern` holds exactly when some position of the line starts a DROP-IF-EXISTS, CREATE DATABASE/SCHEMA or USE statement ended by `;`, searched anywhere in the line |
| Dump.NoSemicolonClean | dbgoat/admin.py:272-282 | a line without `;` never matches |
| Dump.SplitLinesJoin | dbgoat/admin.py:288-288 | joining the lines with `\n` (plus the final line break, when there is one) gives the text back |
| Dump.SplitLinesFree | dbgoat/admin.py:288-288 | no line holds a line break |
| Dump.KeepLinesSpec | dbgoat/admin.py:289-289 | every kept line is a line of the input without a match, and every line without a match is kept |
| Dump.KeepLinesConcat | dbgoat/admin.py:289-289 | filtering keeps the order: filtering a concatenation is the concatenation of the filterings |
| Dump.KeepLinesClean | dbgoat/admin.py:289-289 | lines that all lack a match are kept verbatim |
| Dump.KeepLinesIdempotent | dbgoat/admin.py:289-289 | filtering an already filtered line list leaves it unchanged |
| Dump.StripLifecycleLines | dbgoat/admin.py:288-289 | the result splits back into exactly the kept lines, and none of its lines matches |
| Dump.StripLifecycleIdempotent | dbgoat/admin.py:288-289 | stripping the stripped text again changes nothing when the last kept line is not blank |
| Dump.StripLifecycleNotIdempotent | dbgoat/admin.py:288-289 | with a blank last kept line the text shrinks again: `x\n\n` gives `x\n`, which gives `x` |
| Dump.TransformDump | dbgoat/admin.py:245-291 | a returned name is a valid USE name or the nonempty override |
| Dump.TransformDumpErrors | dbgoat/admin.py:247-260 | "multiple databases" exactly when there are two CREATE statements; "does not contain the CREATE" exactly when there is none; "does not contain the USE" exactly when there is one CREATE and no USE; success exactly when there are one CREATE and a USE |
| Dump.TransformDumpResult | dbgoat/admin.py:255-291 | the name comes from the leftmost USE statement; a nonempty, different override is returned and replaces every occurrence of that name in the text; otherwise the name is returned and the text is not substituted; the body is that text with its matching lines dropped |
| Dump.TransformDumpClean | dbgoat/admin.py:272-291 | no line of the returned text matches any of the three patterns |
| Dump.TransformDumpExample | dbgoat/admin.py:245-291 | `CREATE DATABASE foo;`, `USE foo;`, `CREATE TABLE t (id INT);` gives `foo` and the table line alone, without its line break |
| Dump.NoLineBreakNoCreate | dbgoat/admin.py:247-251 | a text without a line break holds no CREATE match and is rejected as lacking the CREATE statement |
| Dump.UnterminatedCreateExample | dbgoat/admin.py:247-251 | a CREATE statement on a last line without a line break is not counted |
| GoatAdmin.SanitizeCreds | dbgoat/admin.py:27-35 | ValueError exactly when one of host, port, user or password is missing; otherwise exactly those four keys, in that order, with the caller's values (extra keys dropped) |
| GoatAdmin.Admin.New | dbgoat/admin.py:23-35 | construction fails with ValueError exactly when a required credential is missing; the stored options hold exactly the four credentials with the caller's values |
| GoatAdmin.Admin.constructor | dbgoat/admin.py:150-169 | the stored options are the sanitised credentials, with the MySQL tool and flag tables |
| GoatAdmin.Admin.BuildCommand | dbgoat/admin.py:73-84 | KeyError for an unknown tool, otherwise the rendered command of the tool's program |
| GoatAdmin.PasswordEnv | dbgoat/admin.py:99-101 | the environment is the inherited one with `MYSQL_PWD` set to the password; it holds only strings exactly when the password is one |
| GoatAdmin.Issue | dbgoat/admin.py:99-108 | KeyError('password') with the options unchanged when the password is missing; KeyError(tool) for an unknown tool, with the password already popped |
| GoatAdmin.IssueSucceeds | dbgoat/admin.py:99-108 | with a known tool, the process starts exactly when the password and every token are strings and the program is found; then the command starts with the tool's program and is built without the password, the password is in `MYSQL_PWD`, and afterwards every key reads as before while `password` sits last |
| GoatAdmin.IssueLaunchFails | dbgoat/admin.py:99-108 | a password that is not a string raises TypeError, a missing program TypeError or FileNotFoundError; on any such failure the options have lost the password and the next command, whatever its tool, raises KeyError('password') |
| GoatAdmin.IssueOmitsPassword | dbgoat/admin.py:100-103 | the options the command is rendered from hold no password unless the caller passes one, so no `--password` token is produced |
| GoatAdmin.IssueUnknownToolLosesPassword | dbgoat/admin.py:100-108 | an unknown tool raises KeyError after the pop and the password is not put back, so the next command raises KeyError('password') |
| GoatAdmin.Admin.IssueCommand | dbgoat/admin.py:87-109 | the method's result and new options are those `Issue` specifies, and the administrator stays valid |
| GoatAdmin.Admin.Export | dbgoat/admin.py:320-341 | returns the normalised file name with the dump command issued with the export options; failures are those of the issue |
| GoatAdmin.Admin.Backup | dbgoat/admin.py:391-398 | the dump command issued with the backup options |
| GoatAdmin.Admin.Restore | dbgoat/admin.py:294-317 | a transformation error is returned with the options unchanged; otherwise the client is connected to the resolved database, fed the cleaned text, and the name is returned |
| GoatAdmin.RenderConnection | dbgoat/admin.py:160-163 | truthy scalar host, port and user render as `--host=…`, `--port=…`, `--user=…` |
| GoatAdmin.CredentialsShape | dbgoat/admin.py:27-35 | sanitised scalar credentials are renderable, have the four required keys in order, and the password comes last |
| GoatAdmin.IssueAppended | dbgoat/admin.py:99-108 | with the password last, a command whose options share no stored key is the program, the other stored options, then its own options; it starts exactly when its tokens and the password are strings and the program is found, and then the options end as they began; otherwise they have lost the password, with TypeError or FileNotFoundError |
| GoatAdmin.IssueSanitized | dbgoat/admin.py:99-108 | on sanitised credentials a command is the program, the three connection flags, then its own options, the password only in the environment; the same start and failure cases, a failure leaving the connection without its password |
| GoatAdmin.OptionSetKeys | dbgoat/admin.py:333-339 | the export, backup and restore options have distinct keys and use no credential name |
| GoatAdmin.RenderExportOptions | dbgoat/admin.py:333-339 | the export options render as `--result-file=file`, `--column-statistics=0`, `--databases`, then the database |
| GoatAdmin.RenderBackupOptions | dbgoat/admin.py:393-398 | the backup options render as `--result-file=file`, `--column-statistics=0`, `--all-databases` |
| GoatAdmin.RenderRestoreOptions | dbgoat/admin.py:309-313 | the restore options render as `--database=name` |
| GoatAdmin.ExportCommand | dbgoat/admin.py:333-339 | the full `mysqldump` argument list of `export`, the password in `MYSQL_PWD` and the options restored, when the password is a string and `mysqldump` is found; otherwise TypeError or FileNotFoundError and the password lost |
| GoatAdmin.BackupCommand | dbgoat/admin.py:393-398 | the full `mysqldump` argument list of `backup`, with the same start and failure cases |
| GoatAdmin.BackupDefaultFile | dbgoat/admin.py:391-398 | `backup()` without a file dumps into `backup.sql` |
| GoatAdmin.RestoreCommand | dbgoat/admin.py:309-313 | the full `mysql` argument list of `restore`, fed the cleaned dump, with the same start and failure cases for `mysql` |
| GoatAdmin.ExportIntPasswordLost | dbgoat/admin.py:99-108 | with the integer password `1234`, `export('db')` writes to `db.sql` but raises TypeError, and the next `export` raises KeyError('password') |
| PalAdmin.Admin.New | dbpal/dbpal.py:18-29 | KeyError exactly when the credential entry is absent; otherwise the administrator keeps that entry as its options |
| PalAdmin.Admin.constructor | dbpal/dbpal.py:107-127 | the stored options are the credential entry, with the MySQL tool and flag tables |
| PalAdmin.UpdatedFlagsSpelled | dbpal/dbpal.py:118-127 | updating the placeholder flag table gives every option a spelling: the keys and spellings are exactly those of the MySQL table |
| PalAdmin.Admin.BuildCommand | dbpal/dbpal.py:31-66 | KeyError for an unknown tool, otherwise the command the shared renderer specifies |
| PalAdmin.Run | dbpal/dbpal.py:84-84 | a shell line always starts; an argument list starts exactly when every token is a string and, without a shell, the program is found, and is then the process started |
| PalAdmin.Admin.IssueCommand | dbpal/dbpal.py:68-84 | KeyError for an unknown tool, otherwise the built argument list run with the shell flag, started or raising as `Run` says |
| PalAdmin.Admin.Create | dbpal/dbpal.py:129-134 | the client run with the statement `CREATE DATABASE name` |
| PalAdmin.Admin.Delete | dbpal/dbpal.py:136-141 | the client run with the statement `DROP DATABASE IF EXISTS name` |
| PalAdmin.Admin.Backup | dbpal/dbpal.py:143-150 | the dump of every database into the given file |
| PalAdmin.Admin.Export | dbpal/dbpal.py:152-169 | the dump of one database into the normalised file name |
| PalAdmin.Admin.Restore | dbpal/dbpal.py:173-189 | the database is created first, and its exception ends the call with nothing started; otherwise the joined line of the client command, the database and `< file` is run, and the join cannot fail |
| PalAdmin.Admin.Rename | dbpal/dbpal.py:192-214 | the new database is created first, and its exception ends the call with nothing started; otherwise the pipe of the joined dump and client commands is run, and neither join can fail |
| PalAdmin.StrAfterCreate | dbpal/dbpal.py:176-186 | once `create`'s command holds only strings, every command built from the stored options with string-rendering per-call options does too |
| PalAdmin.RestoreJoinsAfterCreate | dbpal/dbpal.py:176-186 | after `create` has started, the restore tokens join |
| PalAdmin.RenameJoinsAfterCreate | dbpal/dbpal.py:196-211 | after `create` has started, both commands of the rename pipe join |
| PalAdmin.CreateRaisesOnStoredNumber | dbpal/dbpal.py:129-134 | a stored positional entry holding a number makes `create` raise TypeError, so the stopping path of `restore` and `rename` is reachable |
| PalAdmin.JoinTokens | dbpal/dbpal.py:186-186 | TypeError exactly when a token is not a string; otherwise the texts separated by single spaces |
| PalAdmin.JoinTokensSnoc | dbpal/dbpal.py:184-186 | appending a string token appends a space and its text, and fails exactly when the command does |
| PalAdmin.JoinTokensSplit | dbpal/dbpal.py:186-186 | the joined line splits on spaces back into the tokens when no token holds a space |
| PalAdmin.PipeLine | dbpal/dbpal.py:211-211 | the pipe is as long as both commands plus the three characters of ` \| ` |
| PalAdmin.PipeLineSplit | dbpal/dbpal.py:211-211 | the pipe splits at `\|` into exactly its two commands when neither holds one |
| PalAdmin.PositionalEntry | dbpal/dbpal.py:63-64 | a string under a key that is neither known nor `__` renders as its text |
| PalAdmin.RestoreTokensShape | dbpal/dbpal.py:179-184 | without a stored `db_name` key, the restore tokens are the client command, the database last, then `< file` |
| PalAdmin.RestoreLineShape | dbpal/dbpal.py:179-186 | the restore line is the joined client command, a space, the database, ` < ` and the file, and fails exactly when the client command's tokens do |
| PalAdmin.StatementShape | dbpal/dbpal.py:129-141 | a statement renders last as `--execute=statement` when the stored options hold none |
| PalAdmin.CreateDeleteShape | dbpal/dbpal.py:129-141 | `create` and `delete` end with `--execute=CREATE DATABASE name` and `--execute=DROP DATABASE IF EXISTS name` |
| PalAdmin.OptionSetsDistinct | dbpal/dbpal.py:143-169 | the export, backup and rename-dump options have distinct keys |
| PalAdmin.RenderExportOptions | dbpal/dbpal.py:164-169 | the export options render as `--result-file=file`, `--column-statistics=0`, then the database (no `--databases`) |
| PalAdmin.RenderRenameDumpOptions | dbpal/dbpal.py:199-204 | the rename dump options render as `--column-statistics=0`, `--databases`, then the old database |
| PalAdmin.RenderBackupOptions | dbpal/dbpal.py:143-150 | the backup options render as `--result-file=file`, `--column-statistics=0`, `--all-databases` |
| PalAdmin.BackupShape | dbpal/dbpal.py:143-150 | the backup dump is `mysqldump`, the stored options, the result file, `--column-statistics=0`, then `--all-databases` |
| PalAdmin.BackupDefaultShape | dbpal/dbpal.py:143-150 | `backup()` without a file ends its dump with `--result-file=backup.sql` |
| PalAdmin.ExportShape | dbpal/dbpal.py:152-169 | the export dump is `mysqldump`, the stored options, the normalised result file, `--column-statistics=0`, then the database |
| PalAdmin.RenameShape | dbpal/dbpal.py:199-209 | the dump ends with `--column-statistics=0`, `--databases` and the old database; the client command ends with `--database=new` |

## Left out

- Running processes (`runShellCommand` in `dbgoat/auxiliar.py`, `subprocess.run` in `dbpal/dbpal.py`) is process I/O. A command is modelled by the value it hands to the process: `GoatAdmin.Invocation` (arguments, environment, standard input) and `PalAdmin.Process` (an argument list with its shell flag, or a shell line). Whether it starts is `Auxiliar.LaunchError`; the set of programs the system finds on its path is a parameter (`programs`). What the process does once started, and the `CompletedProcess` it returns, are not modelled.
- Auxiliar.LaunchError: the ValueError `subprocess.run` raises for a string holding a NUL character is not modelled, and neither are the failures of a started program (a shell line always starts).
- `os.environ` is a parameter (`environ`), a map from strings to strings. dbpal's credential table (`scripts.creds`) is a parameter (`credsTable`).
- The database-driver work is left out because its effects live on the server and depend on foreign calls: `_connect`, `closeConnection`, `listAllDBs`, and dbgoat's `create` and `delete`. So is the orchestration in dbgoat's `duplicate` and `rename`. Its argument lists are the same builds as dbpal's `rename` (`PalAdmin.RenameShape`).
- GoatAdmin.Admin.Restore: the file reading and the `self.create` driver call that precede the command are left out; the method takes the file's text.
- dbpal's `duplicate` has an empty body, and the base class's `create`, `delete`, `rename`, `duplicate` and `export` are abstract; none of them computes anything to model.
- `dbgoat/instance.py` and the `DBInstance` classes of `dbpal/dbpal.py` are left out: every method is a driver call.
- Logging, `warnings` and dbpal's `print` calls are left out. So is the comparison `required_keys != creds.keys()`: a list never equals a `dict_keys` view, so the comparison always holds and only chooses a log message.
- Auxiliar.BuildCommand: requires `Renderable`, which excludes a list value under a known flag (when truthy) or under a `__` key. Python would render such a value with `repr`, which is not modelled. A positional `None` or integer is modelled: it stays a non-string token, on which `subprocess.run` raises TypeError.
- GoatAdmin.Admin.New: requires the four required credentials, where present, to be scalars, for the same reason; other keys are dropped and may hold anything.
- PalAdmin.Admin.New: requires the chosen credential entry to be renderable, for the same reason.
- GoatAdmin.Admin.IssueCommand: the `shell` and `encoding` arguments are not modelled; every caller passes the defaults.
- PalAdmin.JoinTokens: the TypeError message is fixed; Python's names the offending item's index and type.
- SplitLines: `str.splitlines` also breaks at `\r`, `\r\n`, `\x0b`, `\x0c`, `\x1c`-`\x1e`, `\x85` and the Unicode line and paragraph separators. The model breaks only at `\n`.
- The three `hasPattern` expressions and the CREATE and USE expressions are modelled by hand-written scanners. No general regular-expression engine is modelled.
- Keyword names such as `__column_statistics` are taken as the keys the option dict receives, as written at the call sites.
- Auxiliar.GetDictItem: an item that is not a dict is modelled as a scalar. Subscripting it raises TypeError with a fixed message.
