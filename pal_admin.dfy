/**
 * dbpal/dbpal.py: the earlier MySQL administrator. It keeps the credential
 * entry it was constructed with, builds commands with the same three-rule
 * renderer as dbgoat (tool lookup first), and composes the shell lines of
 * `restore` (the client command with `< file` appended) and `rename` (a dump
 * piped into the client), each joined with single spaces.
 *
 * A command is modelled by the `Process` it hands to `subprocess.run`, an
 * argument list or a shell line; whether it starts or raises is `Run`.
 */
module PalAdmin {
  import opened Wrappers
  import opened Values
  import opened Strings
  import opened OrderedDicts
  import opened Auxiliar
  import opened MySql

  const CreateStatement := "CREATE DATABASE "
  const DropStatement := "DROP DATABASE IF EXISTS "
  /** The file `backup` writes when it is given none. */
  const DefaultBackupFile := "backup.sql"
  /** The exception `' '.join` raises on a token that is not a string. */
  const JoinTypeError := "sequence item: expected str instance"

  /** What `subprocess.run` is handed: an argument list (run with or without a shell), or a shell line. */
  datatype Process = Exec(args: seq<Value>, shell: bool) | ShellLine(line: string)

  // ---------------------------------------------------------------------------
  // `' '.join`

  /** The texts of string tokens. */
  function Texts(tokens: seq<Value>): (r: seq<string>)
    requires AllStr(tokens)
    ensures |r| == |tokens| && forall i :: 0 <= i < |tokens| ==> Str(r[i]) == tokens[i]
  {
    seq(|tokens|, i requires 0 <= i < |tokens| => tokens[i].s)
  }

  /**
   * `' '.join(tokens)`: TypeError unless every token is a string, otherwise
   * the texts separated by single spaces.
   */
  function JoinTokens(tokens: seq<Value>): (r: Result<string, Error>)
    ensures r.Success? <==> AllStr(tokens)
    ensures r.Failure? ==> r.error == TypeError(JoinTypeError)
    ensures r.Success? ==> r.value == Join(" ", Texts(tokens))
    decreases |tokens|
  {
    if tokens == [] then Success("")
    else if !tokens[0].Str? then Failure(TypeError(JoinTypeError))
    else if |tokens| == 1 then Success(tokens[0].s)
    else
      match JoinTokens(tokens[1..])
      case Failure(e) =>
        assert !tokens[1..][0].Str? || !AllStr(tokens[1..]);
        Failure(e)
      case Success(rest) =>
        assert Texts(tokens) == [tokens[0].s] + Texts(tokens[1..]);
        Success(tokens[0].s + " " + rest)
  }

  /** Appending a string token to a nonempty command appends a space and its text, and fails exactly when the command does. */
  lemma JoinTokensSnoc(tokens: seq<Value>, y: string)
    requires tokens != []
    ensures JoinTokens(tokens + [Str(y)]).Success? <==> JoinTokens(tokens).Success?
    ensures JoinTokens(tokens).Success? ==> JoinTokens(tokens + [Str(y)]).value == JoinTokens(tokens).value + " " + y
  {
    var all := tokens + [Str(y)];
    assert AllStr(all) <==> AllStr(tokens) by {
      assert forall i :: 0 <= i < |tokens| ==> all[i] == tokens[i];
      assert all[|tokens|] == Str(y);
    }
    if AllStr(tokens) {
      assert Texts(all) == Texts(tokens) + [y];
      JoinSnoc(" ", Texts(tokens), y);
    }
  }

  /** Appending two string tokens appends each after a space. */
  lemma JoinTokensSnocTwo(tokens: seq<Value>, x: string, y: string)
    requires tokens != []
    ensures JoinTokens(tokens + [Str(x), Str(y)]).Success? <==> JoinTokens(tokens).Success?
    ensures JoinTokens(tokens).Success? ==> JoinTokens(tokens + [Str(x), Str(y)]).value == JoinTokens(tokens).value + " " + x + " " + y
  {
    JoinTokensSnoc(tokens, x);
    JoinTokensSnoc(tokens + [Str(x)], y);
    assert tokens + [Str(x)] + [Str(y)] == tokens + [Str(x), Str(y)];
  }

  /** The joined line gives the tokens back when split on spaces, provided no token holds a space. */
  lemma JoinTokensSplit(tokens: seq<Value>)
    requires tokens != [] && AllStr(tokens)
    requires forall i :: 0 <= i < |tokens| ==> ' ' !in tokens[i].s
    ensures SplitOn(JoinTokens(tokens).value, " ") == Texts(tokens)
  {
    JoinSplitChar(Texts(tokens), ' ');
  }

  // ---------------------------------------------------------------------------
  // The option sets and the composed lines

  /** `export`'s options: result file, `--column-statistics=0` and the database positionally (no `--databases`). */
  function ExportOptions(file: string, dbName: string): Dict {
    [("output", Str(file)), ("__column_statistics", Int(0)), ("db_name", Str(dbName))]
  }

  /** `backup`'s options: result file, `--column-statistics=0` and `--all-databases`. */
  function BackupOptions(file: string): Dict {
    [("output", Str(file)), ("__column_statistics", Int(0)), ("__all_databases", Null)]
  }

  /** The dump half of `rename`: `--column-statistics=0`, a bare `--databases` and the database positionally. */
  function RenameDumpOptions(dbName: string): Dict {
    [("__column_statistics", Int(0)), ("databases", Null), ("db_name", Str(dbName))]
  }

  /** The tokens `restore` joins: the client command with the database positionally, then `< file`. */
  function RestoreTokens(opts: Dict, inputFile: string, dbName: string): seq<Value>
    requires Renderable(MySql.Flags, opts)
  {
    Build("mysql", opts, MySql.Flags, [("db_name", Str(dbName))]) + [Str("< " + inputFile)]
  }

  /** The pipe of `rename`: the joined dump command, ` | `, the joined client command. */
  function PipeLine(dump: string, import_: string): (r: string)
    ensures |r| == |dump| + 3 + |import_|
  {
    dump + " | " + import_
  }

  /** The pipe splits back into its two commands at `|` when neither holds one. */
  lemma PipeLineSplit(dump: string, import_: string)
    requires '|' !in dump && '|' !in import_
    ensures SplitOn(PipeLine(dump, import_), "|") == [dump + " ", " " + import_]
  {
    assert PipeLine(dump, import_) == (dump + " ") + ['|'] + (" " + import_);
    SplitOnConcat(dump + " ", " " + import_, '|');
    SplitOnNoSep(dump + " ", '|');
    SplitOnNoSep(" " + import_, '|');
  }

  /** The initial flag table: the six connection options, each still without a spelling. */
  const InitialFlags: map<string, Option<string>> := map[
    "host" := None, "port" := None, "user" := None,
    "password" := None, "database" := None, "statement" := None]

  /** The table after `options_flags.update(...)`. */
  function UpdatedFlags(): map<string, Option<string>> {
    InitialFlags + map k | k in MySql.Flags :: Some(MySql.Flags[k])
  }

  /** The update spells every option of the initial table: none keeps a missing spelling, and the keys are those of the MySQL table. */
  lemma UpdatedFlagsSpelled()
    ensures UpdatedFlags().Keys == MySql.Flags.Keys
    ensures forall k :: k in UpdatedFlags() ==> UpdatedFlags()[k] == Some(MySql.Flags[k])
  {
    assert forall k :: k in InitialFlags ==> k in MySql.Flags;
  }

  /**
   * `subprocess.run` on what it is handed, with the inherited environment:
   * an argument list starts unless `LaunchError` names the exception it
   * raises; a shell line always starts, since `/bin/sh` reports any failing
   * command itself.
   */
  function Run(p: Process, programs: set<string>): (r: Result<Process, Error>)
    requires p.Exec? ==> p.args != []
    ensures r.Success? ==> r.value == p
    ensures p.ShellLine? ==> r.Success?
    ensures p.Exec? ==> (r.Success? <==> AllStr(p.args) && (p.shell || p.args[0].s in programs))
  {
    match p
    case ShellLine(_) => Success(p)
    case Exec(args, shell) =>
      match LaunchError(args, None, shell, programs)
      case Some(e) => Failure(e)
      case None => Success(p)
  }

  /** The argument list of `create(db_name)`: the client with `--execute=CREATE DATABASE name`. */
  function CreateArgs(opts: Dict, dbName: string): seq<Value>
    requires Renderable(MySql.Flags, opts)
  {
    Build("mysql", opts, MySql.Flags, [("statement", Str(CreateStatement + dbName))])
  }

  // ---------------------------------------------------------------------------
  // The administrator

  /** dbpal's `MySQLDBAdmin`: the credential entry it keeps and the tables it renders with. */
  class Admin {
    const dbType: string
    const tools: map<string, string>
    const optionsFlags: map<string, string>
    const optionsValues: Dict

    ghost predicate Valid() {
      && dbType == "mysql" && tools == MySql.Tools && optionsFlags == MySql.Flags
      && Renderable(optionsFlags, optionsValues)
    }

    /** `DBAdmin.__init__` and `MySQLDBAdmin.__init__`, given the credential entry. */
    constructor (entry: Dict)
      requires Renderable(MySql.Flags, entry)
      ensures optionsValues == entry
      ensures Valid()
    {
      dbType := "mysql";
      tools := MySql.Tools;
      optionsFlags := MySql.Flags;
      optionsValues := entry;
    }

    /** Construction from an entry of the credential table: KeyError when the entry is absent. */
    static method New(credEntry: string, credsTable: map<string, Dict>) returns (r: Result<Admin, Error>)
      requires credEntry in credsTable ==> Renderable(MySql.Flags, credsTable[credEntry])
      ensures r.Failure? <==> credEntry !in credsTable
      ensures r.Failure? ==> r.error == KeyError(credEntry)
      ensures r.Success? ==> fresh(r.value) && r.value.Valid() && r.value.optionsValues == credsTable[credEntry]
    {
      if credEntry !in credsTable {
        return Failure(KeyError(credEntry));
      }
      var admin := new Admin(credsTable[credEntry]);
      return Success(admin);
    }

    /** `buildCommand(tool, **kwargs)`: KeyError for an unknown tool, otherwise the rendered command. */
    method BuildCommand(tool: string, kwargs: Dict) returns (r: Result<seq<Value>, Error>)
      requires Valid() && Renderable(optionsFlags, kwargs)
      ensures tool !in tools ==> r == Failure(KeyError(tool))
      ensures tool in tools ==> r == Success(Build(tools[tool], optionsValues, optionsFlags, kwargs))
    {
      if tool !in tools {
        return Failure(KeyError(tool));
      }
      var executable := tools[tool];
      var cmdChain := Auxiliar.BuildCommand(executable, optionsValues, optionsFlags, kwargs);
      return Success(cmdChain);
    }

    /**
     * `issueCommand(tool, shell, **kwargs)`: KeyError for an unknown tool,
     * otherwise the argument list handed to `subprocess.run`, started or
     * raising as `Run` says.
     */
    method IssueCommand(tool: string, kwargs: Dict, shell: bool, programs: set<string>) returns (r: Result<Process, Error>)
      requires Valid() && Renderable(optionsFlags, kwargs)
      ensures tool !in tools ==> r == Failure(KeyError(tool))
      ensures tool in tools ==> r == Run(Exec(Build(tools[tool], optionsValues, optionsFlags, kwargs), shell), programs)
    {
      var cmdChain := BuildCommand(tool, kwargs);
      if cmdChain.Failure? {
        return Failure(cmdChain.error);
      }
      var launched := LaunchError(cmdChain.value, None, shell, programs);
      if launched.Some? {
        return Failure(launched.value);
      }
      return Success(Exec(cmdChain.value, shell));
    }

    /** `create(db_name)`: the client run with `--execute=CREATE DATABASE name`. */
    method Create(dbName: string, programs: set<string>) returns (r: Result<Process, Error>)
      requires Valid()
      ensures r == Run(Exec(CreateArgs(optionsValues, dbName), false), programs)
    {
      ToolPrograms();
      r := IssueCommand("main", [("statement", Str(CreateStatement + dbName))], false, programs);
    }

    /** `delete(db_name)`: the client run with `--execute=DROP DATABASE IF EXISTS name`. */
    method Delete(dbName: string, programs: set<string>) returns (r: Result<Process, Error>)
      requires Valid()
      ensures r == Run(Exec(Build("mysql", optionsValues, MySql.Flags, [("statement", Str(DropStatement + dbName))]), false), programs)
    {
      ToolPrograms();
      r := IssueCommand("main", [("statement", Str(DropStatement + dbName))], false, programs);
    }

    /** `backup(output_file)`: the dump of every database. */
    method Backup(outputFile: string, programs: set<string>) returns (r: Result<Process, Error>)
      requires Valid()
      ensures r == Run(Exec(Build("mysqldump", optionsValues, MySql.Flags, BackupOptions(outputFile)), false), programs)
    {
      ToolPrograms();
      BackupOptionsRenderable(outputFile);
      r := IssueCommand("export", BackupOptions(outputFile), false, programs);
    }

    /** `export(db_name, output_file)`: the dump of one database into the normalised file name. */
    method Export(dbName: string, outputFile: Option<string>, programs: set<string>) returns (r: Result<Process, Error>)
      requires Valid()
      ensures r == Run(Exec(Build("mysqldump", optionsValues, MySql.Flags, ExportOptions(ExportFileName(dbName, outputFile), dbName)), false), programs)
    {
      var file := if outputFile.None? then dbName else outputFile.value;
      if !EndsWith(file, ".sql") {
        file := file + ".sql";
      }
      ToolPrograms();
      ExportOptionsRenderable(file, dbName);
      r := IssueCommand("export", ExportOptions(file, dbName), false, programs);
    }

    /**
     * `restore(input_file, db_name)`: the database is created first, and an
     * exception of that start ends the call with nothing started. Otherwise
     * the client command, with the database positionally and `< file`
     * appended, is joined into one shell line and run. The join cannot raise
     * then: every token of the line that could be a non-string is also in
     * `create`'s command, which started.
     */
    method Restore(inputFile: string, dbName: string, programs: set<string>) returns (started: seq<Process>, error: Option<Error>)
      requires Valid()
      ensures var created := Run(Exec(CreateArgs(optionsValues, dbName), false), programs);
        created.Failure? ==> started == [] && error == Some(created.error)
      ensures var created := Run(Exec(CreateArgs(optionsValues, dbName), false), programs);
        var line := JoinTokens(RestoreTokens(optionsValues, inputFile, dbName));
        created.Success? ==> line.Success? && started == [created.value, ShellLine(line.value)] && error == None
    {
      var created := Create(dbName, programs);
      if created.Failure? {
        return [], Some(created.error);
      }
      started := [created.value];
      ToolPrograms();
      DbNameRenderable(dbName);
      var cmdRestore := BuildCommand("main", [("db_name", Str(dbName))]);
      var tokens := cmdRestore.value + [Str("< " + inputFile)];
      RestoreJoinsAfterCreate(optionsValues, inputFile, dbName);
      var line := JoinTokens(tokens);
      started := started + [ShellLine(line.value)];
      error := None;
    }

    /**
     * `rename(db_name, db_new_name)`: the new database is created first, and
     * an exception of that start ends the call with nothing started.
     * Otherwise the dump of the old database is piped into the client
     * connected to the new one, each command joined with spaces, and the pipe
     * is run; neither join can raise once `create`'s command has started.
     */
    method Rename(dbName: string, newName: string, programs: set<string>) returns (started: seq<Process>, error: Option<Error>)
      requires Valid()
      ensures var created := Run(Exec(CreateArgs(optionsValues, newName), false), programs);
        created.Failure? ==> started == [] && error == Some(created.error)
      ensures var created := Run(Exec(CreateArgs(optionsValues, newName), false), programs);
        var dump := JoinTokens(Build("mysqldump", optionsValues, MySql.Flags, RenameDumpOptions(dbName)));
        var import_ := JoinTokens(Build("mysql", optionsValues, MySql.Flags, [("database", Str(newName))]));
        created.Success? ==>
          && dump.Success? && import_.Success?
          && started == [created.value, ShellLine(PipeLine(dump.value, import_.value))] && error == None
    {
      var created := Create(newName, programs);
      if created.Failure? {
        return [], Some(created.error);
      }
      started := [created.value];
      ToolPrograms();
      RenameOptionsRenderable(dbName, newName);
      var cmdDump := BuildCommand("export", RenameDumpOptions(dbName));
      var cmdImport := BuildCommand("main", [("database", Str(newName))]);
      RenameJoinsAfterCreate(optionsValues, dbName, newName);
      var dump := JoinTokens(cmdDump.value);
      var import_ := JoinTokens(cmdImport.value);
      started := started + [ShellLine(PipeLine(dump.value, import_.value))];
      error := None;
    }
  }

  // ---------------------------------------------------------------------------
  // Why the joins after `create` cannot raise

  /**
   * Once `create`'s command holds only strings, so does every command built
   * from the same stored options with per-call options that render as
   * strings: `create`'s own per-call option is a known flag, so each stored
   * entry that could render a non-string token is rendered in `create`'s
   * command as well.
   */
  lemma StrAfterCreate(opts: Dict, dbName: string, exe: string, kw: Dict)
    requires Renderable(MySql.Flags, opts) && Renderable(MySql.Flags, kw) && StrEntries(MySql.Flags, kw)
    requires AllStr(CreateArgs(opts, dbName))
    ensures AllStr(Build(exe, opts, MySql.Flags, kw))
  {
    var stmt := Str(CreateStatement + dbName);
    var merged := Insert(opts, "statement", stmt);
    assert Update(opts, [("statement", stmt)]) == merged by {
      assert [("statement", stmt)][1..] == [];
    }
    RenderableInsert(MySql.Flags, opts, "statement", stmt);
    AllStrConcat([Str("mysql")], Render(MySql.Flags, merged));
    RenderAllStr(MySql.Flags, merged);
    InsertStrEntries(MySql.Flags, opts, "statement", stmt);
    assert StrEntries(MySql.Flags, opts) by {
      CommandFlags();
      forall i | 0 <= i < |opts| && opts[i].0 == "statement" ensures AllStr(RenderEntry(MySql.Flags, opts[i].0, opts[i].1)) {
        NonPositionalStr(MySql.Flags, opts[i].0, opts[i].1);
      }
    }
    UpdateStrEntries(MySql.Flags, opts, kw);
    RenderAllStr(MySql.Flags, Update(opts, kw));
    AllStrConcat([Str(exe)], Render(MySql.Flags, Update(opts, kw)));
  }

  /** After `create` has started, the restore line joins. */
  lemma RestoreJoinsAfterCreate(opts: Dict, inputFile: string, dbName: string)
    requires Renderable(MySql.Flags, opts) && AllStr(CreateArgs(opts, dbName))
    ensures JoinTokens(RestoreTokens(opts, inputFile, dbName)).Success?
  {
    var kw := [("db_name", Str(dbName))];
    DbNameEntry(dbName);
    RenderSingle(MySql.Flags, "db_name", Str(dbName));
    RenderAllStr(MySql.Flags, kw);
    StrAfterCreate(opts, dbName, "mysql", kw);
    AllStrConcat(Build("mysql", opts, MySql.Flags, kw), [Str("< " + inputFile)]);
  }

  /** After `create` has started, both commands of the rename pipe join. */
  lemma RenameJoinsAfterCreate(opts: Dict, dbName: string, newName: string)
    requires Renderable(MySql.Flags, opts) && AllStr(CreateArgs(opts, newName))
    ensures Renderable(MySql.Flags, RenameDumpOptions(dbName)) && Renderable(MySql.Flags, [("database", Str(newName))])
    ensures JoinTokens(Build("mysqldump", opts, MySql.Flags, RenameDumpOptions(dbName))).Success?
    ensures JoinTokens(Build("mysql", opts, MySql.Flags, [("database", Str(newName))])).Success?
  {
    RenderRenameDumpOptions(dbName);
    RenderAllStr(MySql.Flags, RenameDumpOptions(dbName));
    StrAfterCreate(opts, newName, "mysqldump", RenameDumpOptions(dbName));
    var kw := [("database", Str(newName))];
    CommandFlags();
    NonPositionalStr(MySql.Flags, "database", Str(newName));
    RenderSingle(MySql.Flags, "database", Str(newName));
    RenderAllStr(MySql.Flags, kw);
    StrAfterCreate(opts, newName, "mysql", kw);
  }

  /**
   * The failure `restore` and `rename` stop at can happen: a stored entry
   * rendered positionally hands `subprocess.run` a number, and `create`
   * raises TypeError.
   */
  lemma CreateRaisesOnStoredNumber(dbName: string, programs: set<string>)
    ensures Renderable(MySql.Flags, [("db_name", Int(1))])
    ensures Run(Exec(CreateArgs([("db_name", Int(1))], dbName), false), programs) == Failure(TypeError(LaunchTypeError))
  {
    var opts := [("db_name", Int(1))];
    StoredNumberRender();
    CreateDeleteShape(opts, dbName);
    var args := CreateArgs(opts, dbName);
    assert args[1] == Int(1);
    assert !AllStr(args);
  }

  lemma StoredNumberRender()
    ensures Renderable(MySql.Flags, [("db_name", Int(1))])
    ensures Render(MySql.Flags, [("db_name", Int(1))]) == [Int(1)]
  {
    UnknownKeys();
    RenderSingle(MySql.Flags, "db_name", Int(1));
  }

  // ---------------------------------------------------------------------------
  // Facts about the tables and the option sets

  lemma ExportOptionsRenderable(file: string, dbName: string)
    ensures Renderable(MySql.Flags, ExportOptions(file, dbName))
  {
    FlagsAreLong();
    assert StartsWith("__column_statistics", "__");
  }

  lemma BackupOptionsRenderable(file: string)
    ensures Renderable(MySql.Flags, BackupOptions(file))
  {
    FlagsAreLong();
    assert StartsWith("__column_statistics", "__") && StartsWith("__all_databases", "__");
  }

  lemma DbNameRenderable(dbName: string)
    ensures Renderable(MySql.Flags, [("db_name", Str(dbName))])
  {
  }

  lemma RenameOptionsRenderable(dbName: string, newName: string)
    ensures Renderable(MySql.Flags, RenameDumpOptions(dbName))
    ensures Renderable(MySql.Flags, [("database", Str(newName))])
  {
    FlagsAreLong();
    assert StartsWith("__column_statistics", "__");
  }

  /** A string entry under a key that is neither a flag nor a pattern renders as its text. */
  lemma PositionalEntry(key: string, v: string)
    requires key !in MySql.Flags && !StartsWith(key, "__")
    ensures EntryRenderable(MySql.Flags, key, Str(v))
    ensures RenderEntry(MySql.Flags, key, Str(v)) == [Str(v)]
  {
  }

  /** The tokens of `restore`, for stored options without a `db_name` key: the client command, the database, then `< file`. */
  lemma RestoreTokensShape(opts: Dict, inputFile: string, dbName: string)
    requires Renderable(MySql.Flags, opts) && !HasKey(opts, "db_name")
    ensures RestoreTokens(opts, inputFile, dbName) ==
      [Str("mysql")] + Render(MySql.Flags, opts) + [Str(dbName), Str("< " + inputFile)]
  {
    DbNameEntry(dbName);
    RenderSingle(MySql.Flags, "db_name", Str(dbName));
    BuildFresh("mysql", opts, MySql.Flags, [("db_name", Str(dbName))]);
  }

  /**
   * The shell line of `restore`, for stored options without a `db_name` key:
   * the client command with the database last, then `< file`, joined with
   * spaces; it fails exactly where the client command's own tokens do.
   */
  lemma RestoreLineShape(opts: Dict, inputFile: string, dbName: string)
    requires Renderable(MySql.Flags, opts) && !HasKey(opts, "db_name")
    ensures var head := JoinTokens([Str("mysql")] + Render(MySql.Flags, opts));
      var line := JoinTokens(RestoreTokens(opts, inputFile, dbName));
      && (line.Success? <==> head.Success?)
      && (head.Success? ==> line.value == head.value + " " + dbName + " < " + inputFile)
  {
    RestoreTokensShape(opts, inputFile, dbName);
    RedirectLine([Str("mysql")] + Render(MySql.Flags, opts), dbName, inputFile);
  }

  /** A command followed by a database and `< file`, joined: the joined command, the database, ` < ` and the file. */
  lemma RedirectLine(head: seq<Value>, dbName: string, inputFile: string)
    requires head != []
    ensures var line := JoinTokens(head + [Str(dbName), Str("< " + inputFile)]);
      && (line.Success? <==> JoinTokens(head).Success?)
      && (JoinTokens(head).Success? ==> line.value == JoinTokens(head).value + " " + dbName + " < " + inputFile)
  {
    JoinTokensSnocTwo(head, dbName, "< " + inputFile);
    if JoinTokens(head).Success? {
      var h := JoinTokens(head).value;
      assert h + " " + dbName + " " + ("< " + inputFile) == h + " " + dbName + " < " + inputFile;
    }
  }

  /** A statement given to the client is rendered last as `--execute=statement` when the stored options hold none. */
  lemma StatementShape(opts: Dict, statement: string)
    requires Renderable(MySql.Flags, opts) && !HasKey(opts, "statement") && statement != ""
    ensures Build("mysql", opts, MySql.Flags, [("statement", Str(statement))]) ==
      [Str("mysql")] + Render(MySql.Flags, opts) + [Str("--execute=" + statement)]
  {
    StatementEntry(statement);
    RenderSingle(MySql.Flags, "statement", Str(statement));
    BuildFresh("mysql", opts, MySql.Flags, [("statement", Str(statement))]);
  }

  /** `create` and `delete` end with their statement on the named database. */
  lemma CreateDeleteShape(opts: Dict, dbName: string)
    requires Renderable(MySql.Flags, opts) && !HasKey(opts, "statement")
    ensures Build("mysql", opts, MySql.Flags, [("statement", Str(CreateStatement + dbName))]) ==
      [Str("mysql")] + Render(MySql.Flags, opts) + [Str("--execute=" + CreateStatement + dbName)]
    ensures Build("mysql", opts, MySql.Flags, [("statement", Str(DropStatement + dbName))]) ==
      [Str("mysql")] + Render(MySql.Flags, opts) + [Str("--execute=" + DropStatement + dbName)]
  {
    StatementShape(opts, CreateStatement + dbName);
    StatementShape(opts, DropStatement + dbName);
    assert "--execute=" + (CreateStatement + dbName) == "--execute=" + CreateStatement + dbName;
    assert "--execute=" + (DropStatement + dbName) == "--execute=" + DropStatement + dbName;
  }

  /** The option sets' keys are distinct. */
  lemma OptionSetsDistinct(file: string, dbName: string)
    ensures Distinct(ExportOptions(file, dbName)) && Distinct(BackupOptions(file)) && Distinct(RenameDumpOptions(dbName))
  {
  }

  /** `export`'s options render as result file, `--column-statistics=0` and the database. */
  lemma RenderExportOptions(file: string, dbName: string)
    requires file != ""
    ensures Renderable(MySql.Flags, ExportOptions(file, dbName))
    ensures Render(MySql.Flags, ExportOptions(file, dbName)) ==
      [Str("--result-file=" + file), Str("--column-statistics=0"), Str(dbName)]
  {
    OutputEntry(file);
    ColumnStatisticsEntry();
    DbNameEntry(dbName);
    RenderThree(MySql.Flags, ("output", Str(file)), ("__column_statistics", Int(0)), ("db_name", Str(dbName)));
  }

  /** `backup`'s options render as result file, `--column-statistics=0` and `--all-databases`. */
  lemma RenderBackupOptions(file: string)
    requires file != ""
    ensures Renderable(MySql.Flags, BackupOptions(file))
    ensures Render(MySql.Flags, BackupOptions(file)) ==
      [Str("--result-file=" + file), Str("--column-statistics=0"), Str("--all-databases")]
  {
    OutputEntry(file);
    ColumnStatisticsEntry();
    AllDatabasesEntry();
    RenderThree(MySql.Flags, ("output", Str(file)), ("__column_statistics", Int(0)), ("__all_databases", Null));
  }

  /** `rename`'s dump options render as `--column-statistics=0`, a bare `--databases` and the database. */
  lemma RenderRenameDumpOptions(dbName: string)
    ensures Renderable(MySql.Flags, RenameDumpOptions(dbName))
    ensures Render(MySql.Flags, RenameDumpOptions(dbName)) ==
      [Str("--column-statistics=0"), Str("--databases"), Str(dbName)]
  {
    ColumnStatisticsEntry();
    DatabasesEntry();
    DbNameEntry(dbName);
    RenderThree(MySql.Flags, ("__column_statistics", Int(0)), ("databases", Null), ("db_name", Str(dbName)));
  }

  /**
   * The export dump for stored options naming none of its keys: the dump
   * program, the stored options, the normalised result file,
   * `--column-statistics=0`, then the database.
   */
  lemma ExportShape(opts: Dict, dbName: string, outputFile: Option<string>)
    requires Renderable(MySql.Flags, opts)
    requires FreshFor(ExportOptions(ExportFileName(dbName, outputFile), dbName), opts)
    ensures var file := ExportFileName(dbName, outputFile);
      Build("mysqldump", opts, MySql.Flags, ExportOptions(file, dbName)) ==
        [Str("mysqldump")] + Render(MySql.Flags, opts) + [Str("--result-file=" + file), Str("--column-statistics=0"), Str(dbName)]
  {
    var file := ExportFileName(dbName, outputFile);
    OptionSetsDistinct(file, dbName);
    RenderExportOptions(file, dbName);
    BuildFresh("mysqldump", opts, MySql.Flags, ExportOptions(file, dbName));
  }

  /**
   * The dump of `backup`, for stored options naming none of its keys: the
   * dump program, the stored options, the result file,
   * `--column-statistics=0` and `--all-databases`.
   */
  lemma BackupShape(opts: Dict, file: string)
    requires Renderable(MySql.Flags, opts) && file != "" && FreshFor(BackupOptions(file), opts)
    ensures Build("mysqldump", opts, MySql.Flags, BackupOptions(file)) ==
      [Str("mysqldump")] + Render(MySql.Flags, opts) + [Str("--result-file=" + file), Str("--column-statistics=0"), Str("--all-databases")]
  {
    OptionSetsDistinct(file, "");
    RenderBackupOptions(file);
    BuildFresh("mysqldump", opts, MySql.Flags, BackupOptions(file));
  }

  /** Without an argument, `backup` writes `backup.sql`: its dump ends with `--result-file=backup.sql` and the two fixed flags. */
  lemma BackupDefaultShape(opts: Dict)
    requires Renderable(MySql.Flags, opts) && FreshFor(BackupOptions(DefaultBackupFile), opts)
    ensures var cmd := Build("mysqldump", opts, MySql.Flags, BackupOptions(DefaultBackupFile));
      |cmd| >= 3 && cmd[|cmd| - 3..] == [Str("--result-file=backup.sql"), Str("--column-statistics=0"), Str("--all-databases")]
  {
    BackupShape(opts, DefaultBackupFile);
    DefaultResultFlag();
  }

  lemma DefaultResultFlag()
    ensures "--result-file=" + DefaultBackupFile == "--result-file=backup.sql"
  {
  }

  /**
   * The two commands of `rename`'s pipe, for stored options naming none of
   * their keys: the dump ends with `--column-statistics=0`, `--databases`
   * and the old database; the client command with `--database=new`.
   */
  lemma RenameShape(opts: Dict, dbName: string, newName: string)
    requires Renderable(MySql.Flags, opts) && FreshFor(RenameDumpOptions(dbName), opts)
    requires !HasKey(opts, "database") && newName != ""
    ensures Build("mysqldump", opts, MySql.Flags, RenameDumpOptions(dbName)) ==
      [Str("mysqldump")] + Render(MySql.Flags, opts) + [Str("--column-statistics=0"), Str("--databases"), Str(dbName)]
    ensures Renderable(MySql.Flags, [("database", Str(newName))])
    ensures Build("mysql", opts, MySql.Flags, [("database", Str(newName))]) ==
      [Str("mysql")] + Render(MySql.Flags, opts) + [Str("--database=" + newName)]
  {
    OptionSetsDistinct("", dbName);
    RenderRenameDumpOptions(dbName);
    BuildFresh("mysqldump", opts, MySql.Flags, RenameDumpOptions(dbName));
    DatabaseEntry(newName);
    RenderSingle(MySql.Flags, "database", Str(newName));
    BuildFresh("mysql", opts, MySql.Flags, [("database", Str(newName))]);
  }
}
