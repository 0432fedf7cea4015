/**
 * dbgoat/admin.py: the MySQL administrator's command-line side. Its
 * constructor keeps exactly the four connection credentials; `buildCommand`
 * looks the tool up and renders the options; `issueCommand` takes the password
 * out of the options and hands it to the client through `MYSQL_PWD` instead,
 * then puts it back; `export`, `backup` and `restore` issue their commands
 * with fixed option sets.
 *
 * A command is modelled by the `Invocation` it would start (argument list,
 * environment, standard input); whether `subprocess.run` starts it or raises
 * is `LaunchError`.
 */
module GoatAdmin {
  import opened Wrappers
  import opened Values
  import opened Strings
  import opened OrderedDicts
  import opened Auxiliar
  import opened MySql
  import opened Dump

  const RequiredKeys := ["host", "port", "user", "password"]
  const InvalidParameters := "Invalid parameters to construct DBAdmin instance"
  const PasswordVariable := "MYSQL_PWD"
  const DefaultBackupFile := "backup.sql"

  /** The process a command would start: its arguments, its environment and its standard input. */
  datatype Invocation = Invocation(command: seq<Value>, env: map<string, Value>, input: Option<string>)

  /** Options whose values are scalars, so that their flags never format a list. */
  predicate ScalarValues(d: Dict) {
    forall i :: 0 <= i < |d| ==> !d[i].1.List?
  }

  /** Credentials whose required entries, the ones that are kept, hold scalars. */
  predicate ScalarCredentials(creds: Dict) {
    forall k :: k in RequiredKeys && HasKey(creds, k) ==> !Get(creds, k).value.List?
  }

  /**
   * `DBAdmin.__init__`'s sanitisation: all of host, port, user and password
   * must be present; exactly those are kept, in that order (any extra key,
   * such as `database`, is dropped).
   */
  function SanitizeCreds(creds: Dict): (r: Result<Dict, Error>)
    ensures r.Failure? <==> exists k :: k in RequiredKeys && !HasKey(creds, k)
    ensures r.Failure? ==> r.error == ValueError(InvalidParameters)
    ensures r.Success? ==> Keys(r.value) == RequiredKeys && Distinct(r.value)
    ensures r.Success? ==> forall k :: k in RequiredKeys ==> Get(r.value, k) == Get(creds, k)
    ensures r.Success? && ScalarCredentials(creds) ==> ScalarValues(r.value)
  {
    RequiredKeysListed();
    MissingRequired(creds);
    if HasKey(creds, "host") && HasKey(creds, "port") && HasKey(creds, "user") && HasKey(creds, "password") then
      var h, p, u, pw := Get(creds, "host").value, Get(creds, "port").value, Get(creds, "user").value, Get(creds, "password").value;
      CredentialsGet(h, p, u, pw);
      ScalarCredentialsKept(creds);
      Success(Credentials(h, p, u, pw))
    else
      Failure(ValueError(InvalidParameters))
  }

  /** The required keys are host, port, user and password. */
  lemma RequiredKeysListed()
    ensures forall k :: k in RequiredKeys <==> k == "host" || k == "port" || k == "user" || k == "password"
  {
  }

  /** A required key is missing exactly when one of the four is absent. */
  lemma MissingRequired(creds: Dict)
    ensures (exists k :: k in RequiredKeys && !HasKey(creds, k)) <==>
      !(HasKey(creds, "host") && HasKey(creds, "port") && HasKey(creds, "user") && HasKey(creds, "password"))
  {
    RequiredKeysListed();
    if !HasKey(creds, "host") {
      assert "host" in RequiredKeys;
    } else if !HasKey(creds, "port") {
      assert "port" in RequiredKeys;
    } else if !HasKey(creds, "user") {
      assert "user" in RequiredKeys;
    } else if !HasKey(creds, "password") {
      assert "password" in RequiredKeys;
    }
  }

  /** The sanitised credentials hold the four required keys, in order, with the given values. */
  lemma CredentialsGet(h: Value, p: Value, u: Value, pw: Value)
    ensures Keys(Credentials(h, p, u, pw)) == RequiredKeys && Distinct(Credentials(h, p, u, pw))
    ensures Get(Credentials(h, p, u, pw), "host") == Some(h) && Get(Credentials(h, p, u, pw), "port") == Some(p)
    ensures Get(Credentials(h, p, u, pw), "user") == Some(u) && Get(Credentials(h, p, u, pw), "password") == Some(pw)
    ensures !h.List? && !p.List? && !u.List? && !pw.List? ==> ScalarValues(Credentials(h, p, u, pw))
  {
    var d := Credentials(h, p, u, pw);
    assert d == [("host", h), ("port", p), ("user", u), ("password", pw)];
    GetAt(d, 0);
    GetAt(d, 1);
    GetAt(d, 2);
    GetAt(d, 3);
  }

  /** Scalar credentials hold a scalar under each of the four required keys. */
  lemma ScalarCredentialsKept(creds: Dict)
    requires HasKey(creds, "host") && HasKey(creds, "port") && HasKey(creds, "user") && HasKey(creds, "password")
    ensures ScalarCredentials(creds) ==>
      && !Get(creds, "host").value.List? && !Get(creds, "port").value.List?
      && !Get(creds, "user").value.List? && !Get(creds, "password").value.List?
  {
    assert "host" in RequiredKeys && "port" in RequiredKeys && "user" in RequiredKeys && "password" in RequiredKeys;
  }

  /** Scalar values are always renderable. */
  lemma ScalarRenderable(flags: map<string, string>, d: Dict)
    requires ScalarValues(d)
    ensures Renderable(flags, d)
  {
  }

  /** Removing an entry keeps a dict renderable. */
  lemma RenderableRemove(flags: map<string, string>, d: Dict, k: string)
    requires Renderable(flags, d) && HasKey(d, k)
    ensures Renderable(flags, Remove(d, k))
  {
    RemoveAt(d, k);
  }

  /** A copy of `os.environ`, whose values are strings, with `MYSQL_PWD` set to the password. */
  function PasswordEnv(environ: map<string, string>, passwd: Value): (r: map<string, Value>)
    ensures r.Keys == environ.Keys + {PasswordVariable} && r[PasswordVariable] == passwd
    ensures forall k :: k in environ && k != PasswordVariable ==> r[k] == Str(environ[k])
    ensures StrValues(r) <==> passwd.Str?
  {
    (map k | k in environ :: Str(environ[k]))[PasswordVariable := passwd]
  }

  /**
   * `issueCommand` on options `opts`: the invocation (or the exception) and
   * the options it leaves behind. The password is popped (KeyError when it is
   * absent), the command is built without it, and it is assigned back only
   * after the command has been built and started: an unknown tool, or a
   * process that `subprocess.run` cannot start, raises before that, so the
   * password is not restored.
   */
  function Issue(opts: Dict, tools: map<string, string>, flags: map<string, string>, tool: string, kwargs: Dict,
                 environ: map<string, string>, programs: set<string>, input: Option<string>)
    : (r: (Result<Invocation, Error>, Dict))
    requires Renderable(flags, opts) && Renderable(flags, kwargs)
    ensures !HasKey(opts, "password") ==> r == (Failure(KeyError("password")), opts)
    ensures HasKey(opts, "password") && tool !in tools ==> r == (Failure(KeyError(tool)), Remove(opts, "password"))
  {
    match Pop(opts, "password")
    case Failure(e) => (Failure(e), opts)
    case Success((passwd, rest)) =>
      RenderableRemove(flags, opts, "password");
      if tool !in tools then (Failure(KeyError(tool)), rest)
      else
        var inv := Invocation(Build(tools[tool], rest, flags, kwargs), PasswordEnv(environ, passwd), input);
        match LaunchError(inv.command, Some(inv.env), false, programs)
        case Some(e) => (Failure(e), rest)
        case None => (Success(inv), Insert(rest, "password", passwd))
  }

  /**
   * With the password present and a known tool, the process starts exactly
   * when the password and every token of the command are strings and the
   * system finds the tool's program. Then the command starts with that
   * program and is built from the options without the password, the password
   * travels in `MYSQL_PWD`, and afterwards every key reads as before while
   * `password` has moved to the end.
   */
  lemma IssueSucceeds(opts: Dict, tools: map<string, string>, flags: map<string, string>, tool: string, kwargs: Dict,
                      environ: map<string, string>, programs: set<string>, input: Option<string>)
    requires Renderable(flags, opts) && Renderable(flags, kwargs)
    requires Distinct(opts) && HasKey(opts, "password") && tool in tools
    ensures Renderable(flags, Remove(opts, "password"))
    ensures var (res, after) := Issue(opts, tools, flags, tool, kwargs, environ, programs, input);
      var passwd := Get(opts, "password").value;
      var rest := Remove(opts, "password");
      var cmd := Build(tools[tool], rest, flags, kwargs);
      && !HasKey(rest, "password")
      && (res.Success? <==> AllStr(cmd) && passwd.Str? && tools[tool] in programs)
      && (res.Success? ==>
        && res.value == Invocation(cmd, PasswordEnv(environ, passwd), input)
        && cmd[0] == Str(tools[tool])
        && after == rest + [("password", passwd)]
        && Distinct(after)
        && (forall k :: Get(after, k) == Get(opts, k)))
  {
    RenderableRemove(flags, opts, "password");
    BuildLength(tools[tool], Remove(opts, "password"), flags, kwargs);
    RemoveKeys(opts, "password");
    PopReinsert(opts, "password");
  }

  /**
   * The source as written: when `subprocess.run` cannot start the process (a
   * password or token that is not a string, or a program the system does not
   * find), it raises before the password is assigned back, so the password is
   * gone and every later command raises KeyError('password') whatever its tool.
   */
  lemma IssueLaunchFails(opts: Dict, tools: map<string, string>, flags: map<string, string>, tool: string, kwargs: Dict,
                         environ: map<string, string>, programs: set<string>, input: Option<string>,
                         tool': string, kwargs': Dict, input': Option<string>)
    requires Renderable(flags, opts) && Renderable(flags, kwargs) && Renderable(flags, kwargs')
    requires Distinct(opts) && HasKey(opts, "password") && tool in tools
    ensures var (res, after) := Issue(opts, tools, flags, tool, kwargs, environ, programs, input);
      && (!Get(opts, "password").value.Str? ==> res == Failure(TypeError(LaunchTypeError)))
      && (Get(opts, "password").value.Str? && tools[tool] !in programs ==>
            res.Failure? && res.error in {TypeError(LaunchTypeError), FileNotFoundError(tools[tool])})
      && (res.Failure? ==>
        && (res.error == TypeError(LaunchTypeError) || res.error == FileNotFoundError(tools[tool]))
        && after == Remove(opts, "password")
        && Renderable(flags, after)
        && Issue(after, tools, flags, tool', kwargs', environ, programs, input').0 == Failure(KeyError("password")))
  {
    IssueSucceeds(opts, tools, flags, tool, kwargs, environ, programs, input);
    RemoveKeys(opts, "password");
  }

  /** Unless the caller passes one, the options the command is rendered from hold no password, so no `--password` token is produced. */
  lemma IssueOmitsPassword(opts: Dict, kwargs: Dict)
    requires Distinct(opts) && HasKey(opts, "password")
    requires Distinct(kwargs) && !HasKey(kwargs, "password")
    ensures !HasKey(Update(Remove(opts, "password"), kwargs), "password")
  {
    RemoveKeys(opts, "password");
    UpdateGet(Remove(opts, "password"), kwargs, "password");
  }

  /**
   * The source as written: an unknown tool raises KeyError after the password
   * was popped, so the password is gone and every later command raises
   * KeyError('password') whatever its tool.
   */
  lemma IssueUnknownToolLosesPassword(opts: Dict, tools: map<string, string>, flags: map<string, string>,
                                      tool: string, kwargs: Dict, environ: map<string, string>, programs: set<string>,
                                      input: Option<string>, tool': string, kwargs': Dict, input': Option<string>)
    requires Renderable(flags, opts) && Renderable(flags, kwargs) && Renderable(flags, kwargs')
    requires Distinct(opts) && HasKey(opts, "password") && tool !in tools
    ensures var (res, after) := Issue(opts, tools, flags, tool, kwargs, environ, programs, input);
      && res == Failure(KeyError(tool))
      && after == Remove(opts, "password")
      && Renderable(flags, after)
      && Issue(after, tools, flags, tool', kwargs', environ, programs, input').0 == Failure(KeyError("password"))
  {
    RemoveKeys(opts, "password");
    RenderableRemove(flags, opts, "password");
  }

  /** `export`'s options: result file, `--column-statistics=0`, a bare `--databases`, and the database positionally. */
  function ExportOptions(file: string, dbName: string): Dict {
    [("output", Str(file)), ("__column_statistics", Int(0)), ("databases", Null), ("db_name", Str(dbName))]
  }

  /** `backup`'s options: result file, `--column-statistics=0` and `--all-databases`. */
  function BackupOptions(file: string): Dict {
    [("output", Str(file)), ("__column_statistics", Int(0)), ("__all_databases", Null)]
  }

  /** `restore`'s options: the database to connect to. */
  function RestoreOptions(dbName: string): Dict {
    [("database", Str(dbName))]
  }

  /** `MySQLDBAdmin`: the administrator object and the fields its commands read and update. */
  class Admin {
    const dbms: string
    const tools: map<string, string>
    const optionsFlags: map<string, string>
    var optionsValues: Dict

    ghost predicate Valid()
      reads this
    {
      && dbms == "mysql" && tools == MySql.Tools && optionsFlags == MySql.Flags
      && Distinct(optionsValues) && Renderable(optionsFlags, optionsValues)
    }

    /** `DBAdmin.__init__` and `MySQLDBAdmin.__init__`, given the sanitised credentials. */
    constructor (sanitized: Dict)
      requires Distinct(sanitized) && ScalarValues(sanitized)
      ensures optionsValues == sanitized
      ensures Valid()
    {
      dbms := "mysql";
      tools := MySql.Tools;
      optionsFlags := MySql.Flags;
      optionsValues := sanitized;
      ScalarRenderable(MySql.Flags, sanitized);
    }

    /** Construction from the caller's credentials: ValueError when one is missing. */
    static method New(creds: Dict) returns (r: Result<Admin, Error>)
      requires ScalarCredentials(creds)
      ensures r.Failure? <==> exists k :: k in RequiredKeys && !HasKey(creds, k)
      ensures r.Failure? ==> r.error == ValueError(InvalidParameters)
      ensures r.Success? ==> fresh(r.value) && r.value.Valid()
      ensures r.Success? ==> Keys(r.value.optionsValues) == RequiredKeys
      ensures r.Success? ==> forall k :: k in RequiredKeys ==> Get(r.value.optionsValues, k) == Get(creds, k)
    {
      var sanitized := SanitizeCreds(creds);
      if sanitized.Failure? {
        return Failure(sanitized.error);
      }
      var admin := new Admin(sanitized.value);
      return Success(admin);
    }

    /** `buildCommand(tool, **kwargs)`: KeyError for an unknown tool, otherwise the rendered command. */
    method BuildCommand(tool: string, kwargs: Dict) returns (r: Result<seq<Value>, Error>)
      requires Valid() && Renderable(optionsFlags, kwargs)
      ensures tool !in tools ==> r == Failure(KeyError(tool))
      ensures tool in tools ==> r == Success(Build(tools[tool], optionsValues, optionsFlags, kwargs))
    {
      if tool !in tools {
        return Failure(KeyError(tool));
      }
      var executable := tools[tool];
      var cmdChain := Auxiliar.BuildCommand(executable, optionsValues, optionsFlags, kwargs);
      return Success(cmdChain);
    }

    /** `issueCommand(tool, input=..., **kwargs)`: the password round trip around the build and the start of the process. */
    method IssueCommand(tool: string, kwargs: Dict, environ: map<string, string>, programs: set<string>, input: Option<string>)
      returns (r: Result<Invocation, Error>)
      requires Valid() && Renderable(optionsFlags, kwargs)
      modifies this
      ensures (r, optionsValues) == Issue(old(optionsValues), tools, optionsFlags, tool, kwargs, environ, programs, input)
      ensures Valid()
    {
      var popped := Pop(optionsValues, "password");
      if popped.Failure? {
        return Failure(popped.error);
      }
      var passwd := popped.value.0;
      RenderableRemove(optionsFlags, optionsValues, "password");
      RemoveKeys(optionsValues, "password");
      optionsValues := popped.value.1;
      var env := PasswordEnv(environ, passwd);
      var cmdChain := BuildCommand(tool, kwargs);
      if cmdChain.Failure? {
        return Failure(cmdChain.error);
      }
      var launched := LaunchError(cmdChain.value, Some(env), false, programs);
      if launched.Some? {
        return Failure(launched.value);
      }
      assert EntryRenderable(optionsFlags, "password", passwd) by {
        GetAt(old(optionsValues), IndexOf(old(optionsValues), "password"));
      }
      RenderableInsert(optionsFlags, optionsValues, "password", passwd);
      InsertDistinct(optionsValues, "password", passwd);
      optionsValues := Insert(optionsValues, "password", passwd);
      return Success(Invocation(cmdChain.value, env, input));
    }

    /** `export(db_name, output_file)`: the file name it returns and the dump command it issues. */
    method Export(dbName: string, outputFile: Option<string>, environ: map<string, string>, programs: set<string>)
      returns (r: Result<(string, Invocation), Error>)
      requires Valid()
      modifies this
      ensures var file := ExportFileName(dbName, outputFile);
        var (res, after) := Issue(old(optionsValues), tools, optionsFlags, "export", ExportOptions(file, dbName), environ, programs, None);
        && optionsValues == after
        && r == (if res.Failure? then Failure(res.error) else Success((file, res.value)))
      ensures Valid()
    {
      var file := if outputFile.None? then dbName else outputFile.value;
      if !EndsWith(file, ".sql") {
        file := file + ".sql";
      }
      var issued := IssueCommand("export", ExportOptions(file, dbName), environ, programs, None);
      if issued.Failure? {
        return Failure(issued.error);
      }
      return Success((file, issued.value));
    }

    /** `backup(output_file)`: the command dumping every database. */
    method Backup(outputFile: string, environ: map<string, string>, programs: set<string>) returns (r: Result<Invocation, Error>)
      requires Valid()
      modifies this
      ensures (r, optionsValues) == Issue(old(optionsValues), tools, optionsFlags, "export", BackupOptions(outputFile), environ, programs, None)
      ensures Valid()
    {
      r := IssueCommand("export", BackupOptions(outputFile), environ, programs, None);
    }

    /**
     * `restore(input_file, db_name)` given the file's text: the dump is
     * transformed, and the cleaned text is fed to the client connected to the
     * resolved database, whose name is returned.
     */
    method Restore(sqlText: string, dbName: Option<string>, environ: map<string, string>, programs: set<string>)
      returns (r: Result<(string, Invocation), Error>)
      requires Valid()
      modifies this
      ensures TransformDump(dbName, sqlText).Failure? ==>
        r == Failure(TransformDump(dbName, sqlText).error) && optionsValues == old(optionsValues)
      ensures TransformDump(dbName, sqlText).Success? ==>
        var (name, body) := TransformDump(dbName, sqlText).value;
        var (res, after) := Issue(old(optionsValues), tools, optionsFlags, "main", RestoreOptions(name), environ, programs, Some(body));
        && optionsValues == after
        && r == (if res.Failure? then Failure(res.error) else Success((name, res.value)))
      ensures Valid()
    {
      var transformed := TransformDump(dbName, sqlText);
      if transformed.Failure? {
        return Failure(transformed.error);
      }
      var (name, body) := transformed.value;
      var issued := IssueCommand("main", RestoreOptions(name), environ, programs, Some(body));
      if issued.Failure? {
        return Failure(issued.error);
      }
      return Success((name, issued.value));
    }
  }

  /** Host, port and user, in the order the sanitised credentials keep them. */
  function Connection(h: Value, p: Value, u: Value): Dict {
    [("host", h), ("port", p), ("user", u)]
  }

  /** Sanitised credentials: the connection, then the password. */
  function Credentials(h: Value, p: Value, u: Value, pw: Value): Dict {
    Connection(h, p, u) + [("password", pw)]
  }

  /** The `--host=…`, `--port=…` and `--user=…` tokens. */
  function ConnectionTokens(h: Value, p: Value, u: Value): seq<Value>
    requires !h.List? && !p.List? && !u.List?
  {
    [Str("--host=" + Format(h)), Str("--port=" + Format(p)), Str("--user=" + Format(u))]
  }

  /** Options that use none of the credential names. */
  predicate NamesNoCredential(kw: Dict) {
    forall i :: 0 <= i < |kw| ==> kw[i].0 !in RequiredKeys
  }

  /** Truthy scalar connection credentials render as their three flags. */
  lemma RenderConnection(h: Value, p: Value, u: Value)
    requires Truthy(h) && Truthy(p) && Truthy(u) && !h.List? && !p.List? && !u.List?
    ensures Renderable(MySql.Flags, Connection(h, p, u))
    ensures Render(MySql.Flags, Connection(h, p, u)) == ConnectionTokens(h, p, u)
  {
    HostEntry(h);
    PortEntry(p);
    UserEntry(u);
    RenderThree(MySql.Flags, ("host", h), ("port", p), ("user", u));
  }

  /** Scalar credentials are renderable, hold a password, have distinct keys, and the connection holds no password. */
  lemma CredentialsShape(h: Value, p: Value, u: Value, pw: Value)
    requires !h.List? && !p.List? && !u.List? && !pw.List?
    ensures !HasKey(Connection(h, p, u), "password")
    ensures Renderable(MySql.Flags, Credentials(h, p, u, pw))
    ensures Distinct(Credentials(h, p, u, pw)) && Keys(Credentials(h, p, u, pw)) == RequiredKeys
  {
    ScalarRenderable(MySql.Flags, Credentials(h, p, u, pw));
  }

  /** Options that use no credential name name none of the connection's keys. */
  lemma NoCredentialFresh(kw: Dict, h: Value, p: Value, u: Value)
    requires NamesNoCredential(kw)
    ensures FreshFor(kw, Connection(h, p, u))
  {
    var c := Connection(h, p, u);
    forall i | 0 <= i < |kw| ensures !HasKey(c, kw[i].0) {
      assert kw[i].0 !in RequiredKeys;
    }
  }

  /**
   * A command issued on sanitised credentials whose host, port and user are
   * truthy scalars, with options that use no credential name: the program,
   * the three connection flags, then the options' own tokens; the password
   * travels only in the environment. The process starts exactly when the
   * password and the options' tokens are strings and the program is found;
   * the options then end as they began, and otherwise the password is gone.
   */
  lemma IssueSanitized(h: Value, p: Value, u: Value, pw: Value, tool: string, kw: Dict,
                       environ: map<string, string>, programs: set<string>, input: Option<string>)
    requires Truthy(h) && Truthy(p) && Truthy(u) && !h.List? && !p.List? && !u.List? && !pw.List?
    requires tool in MySql.Tools && Renderable(MySql.Flags, kw) && Distinct(kw) && NamesNoCredential(kw)
    ensures Renderable(MySql.Flags, Credentials(h, p, u, pw))
    ensures var prog := MySql.Tools[tool];
      var ok := AllStr(Render(MySql.Flags, kw)) && pw.Str?;
      Issue(Credentials(h, p, u, pw), MySql.Tools, MySql.Flags, tool, kw, environ, programs, input) ==
        if ok && prog in programs then
          (Success(Invocation([Str(prog)] + ConnectionTokens(h, p, u) + Render(MySql.Flags, kw), PasswordEnv(environ, pw), input)),
           Credentials(h, p, u, pw))
        else
          (Failure(if ok then FileNotFoundError(prog) else TypeError(LaunchTypeError)), Connection(h, p, u))
  {
    var prog := MySql.Tools[tool];
    CredentialsShape(h, p, u, pw);
    RenderConnection(h, p, u);
    NoCredentialFresh(kw, h, p, u);
    IssueAppended(Connection(h, p, u), pw, MySql.Tools, MySql.Flags, tool, kw, environ, programs, input);
    ConnectionStr(prog, h, p, u);
    AllStrConcat([Str(prog)] + ConnectionTokens(h, p, u), Render(MySql.Flags, kw));
  }

  lemma ConnectionStr(prog: string, h: Value, p: Value, u: Value)
    requires !h.List? && !p.List? && !u.List?
    ensures AllStr([Str(prog)] + ConnectionTokens(h, p, u))
  {
  }

  /**
   * Options whose password entry comes last, issued with options that name
   * none of their keys: the command is the program, the tokens of the other
   * options, then those of the command's own options. The process starts
   * exactly when those tokens and the password are strings and the program
   * is found; the options then end as they began, and otherwise they have
   * lost the password.
   */
  lemma IssueAppended(rest: Dict, pw: Value, tools: map<string, string>, flags: map<string, string>, tool: string, kw: Dict,
                      environ: map<string, string>, programs: set<string>, input: Option<string>)
    requires !HasKey(rest, "password") && Renderable(flags, rest + [("password", pw)])
    requires Renderable(flags, kw) && Distinct(kw) && FreshFor(kw, rest) && tool in tools
    ensures Renderable(flags, rest)
    ensures var cmd := [Str(tools[tool])] + Render(flags, rest) + Render(flags, kw);
      Issue(rest + [("password", pw)], tools, flags, tool, kw, environ, programs, input) ==
        if AllStr(cmd) && pw.Str? && tools[tool] in programs then
          (Success(Invocation(cmd, PasswordEnv(environ, pw), input)), rest + [("password", pw)])
        else
          (Failure(if AllStr(cmd) && pw.Str? then FileNotFoundError(tools[tool]) else TypeError(LaunchTypeError)), rest)
  {
    PopLast(rest, pw, flags);
    BuildFresh(tools[tool], rest, flags, kw);
  }

  /** Popping a password entry that comes last leaves the entries before it. */
  lemma PopLast(rest: Dict, pw: Value, flags: map<string, string>)
    requires !HasKey(rest, "password") && Renderable(flags, rest + [("password", pw)])
    ensures Pop(rest + [("password", pw)], "password") == Success((pw, rest))
    ensures Renderable(flags, rest)
  {
    var opts := rest + [("password", pw)];
    assert opts[|rest|].0 == "password";
    assert forall j :: 0 <= j < |rest| ==> opts[j].0 != "password" by {
      forall j | 0 <= j < |rest| ensures opts[j].0 != "password" {
        assert opts[j] == rest[j];
      }
    }
    IndexOfUnique(opts, "password", |rest|);
    assert opts[..|rest|] + opts[|rest| + 1..] == rest;
    assert Renderable(flags, rest) by {
      forall i | 0 <= i < |rest| ensures EntryRenderable(flags, rest[i].0, rest[i].1) {
        assert opts[i] == rest[i];
      }
    }
  }

  /** The option sets of `export`, `backup` and `restore` have distinct keys, none of them a credential name. */
  lemma OptionSetKeys(file: string, dbName: string)
    ensures Distinct(ExportOptions(file, dbName)) && NamesNoCredential(ExportOptions(file, dbName))
    ensures Distinct(BackupOptions(file)) && NamesNoCredential(BackupOptions(file))
    ensures Distinct(RestoreOptions(dbName)) && NamesNoCredential(RestoreOptions(dbName))
  {
  }

  /** `export`'s options render as result file, `--column-statistics=0`, `--databases`, database. */
  lemma RenderExportOptions(file: string, dbName: string)
    requires file != ""
    ensures var kw := ExportOptions(file, dbName);
      && Renderable(MySql.Flags, kw)
      && Render(MySql.Flags, kw) == [Str("--result-file=" + file), Str("--column-statistics=0"), Str("--databases"), Str(dbName)]
      && AllStr(Render(MySql.Flags, kw))
  {
    OutputEntry(file);
    ColumnStatisticsEntry();
    DatabasesEntry();
    DbNameEntry(dbName);
    RenderFour(MySql.Flags, ("output", Str(file)), ("__column_statistics", Int(0)), ("databases", Null), ("db_name", Str(dbName)));
  }

  /** `backup`'s options render as result file, `--column-statistics=0`, `--all-databases`. */
  lemma RenderBackupOptions(file: string)
    requires file != ""
    ensures var kw := BackupOptions(file);
      && Renderable(MySql.Flags, kw)
      && Render(MySql.Flags, kw) == [Str("--result-file=" + file), Str("--column-statistics=0"), Str("--all-databases")]
      && AllStr(Render(MySql.Flags, kw))
  {
    OutputEntry(file);
    ColumnStatisticsEntry();
    AllDatabasesEntry();
    RenderThree(MySql.Flags, ("output", Str(file)), ("__column_statistics", Int(0)), ("__all_databases", Null));
  }

  /** `restore`'s options render as `--database=name`. */
  lemma RenderRestoreOptions(dbName: string)
    requires dbName != ""
    ensures var kw := RestoreOptions(dbName);
      && Renderable(MySql.Flags, kw)
      && Render(MySql.Flags, kw) == [Str("--database=" + dbName)]
      && AllStr(Render(MySql.Flags, kw))
  {
    DatabaseEntry(dbName);
    RenderSingle(MySql.Flags, "database", Str(dbName));
  }

  /**
   * The dump command of `export` for credentials host, port, user and
   * password with truthy scalar values: the program, the three connection
   * flags, the result file, `--column-statistics=0`, a bare `--databases`,
   * then the database name; the password travels only in the environment.
   * It starts exactly when the password is a string and `mysqldump` is
   * found, and only then is the password back in the options.
   */
  lemma ExportCommand(h: Value, p: Value, u: Value, pw: Value, dbName: string, file: string,
                      environ: map<string, string>, programs: set<string>)
    requires Truthy(h) && Truthy(p) && Truthy(u) && !h.List? && !p.List? && !u.List? && !pw.List? && file != ""
    ensures Renderable(MySql.Flags, Credentials(h, p, u, pw))
    ensures Issue(Credentials(h, p, u, pw), MySql.Tools, MySql.Flags, "export", ExportOptions(file, dbName), environ, programs, None) ==
      if pw.Str? && "mysqldump" in programs then
        (Success(Invocation(
          [Str("mysqldump")] + ConnectionTokens(h, p, u) +
            [Str("--result-file=" + file), Str("--column-statistics=0"), Str("--databases"), Str(dbName)],
          PasswordEnv(environ, pw), None)),
         Credentials(h, p, u, pw))
      else
        (Failure(if pw.Str? then FileNotFoundError("mysqldump") else TypeError(LaunchTypeError)), Connection(h, p, u))
  {
    ToolPrograms();
    OptionSetKeys(file, dbName);
    RenderExportOptions(file, dbName);
    IssueSanitized(h, p, u, pw, "export", ExportOptions(file, dbName), environ, programs, None);
  }

  /**
   * The dump command of `backup`: the program, the three connection flags,
   * the result file, `--column-statistics=0` and `--all-databases`; it starts
   * exactly when the password is a string and `mysqldump` is found.
   */
  lemma BackupCommand(h: Value, p: Value, u: Value, pw: Value, file: string, environ: map<string, string>, programs: set<string>)
    requires Truthy(h) && Truthy(p) && Truthy(u) && !h.List? && !p.List? && !u.List? && !pw.List? && file != ""
    ensures Renderable(MySql.Flags, Credentials(h, p, u, pw))
    ensures Issue(Credentials(h, p, u, pw), MySql.Tools, MySql.Flags, "export", BackupOptions(file), environ, programs, None) ==
      if pw.Str? && "mysqldump" in programs then
        (Success(Invocation(
          [Str("mysqldump")] + ConnectionTokens(h, p, u) +
            [Str("--result-file=" + file), Str("--column-statistics=0"), Str("--all-databases")],
          PasswordEnv(environ, pw), None)),
         Credentials(h, p, u, pw))
      else
        (Failure(if pw.Str? then FileNotFoundError("mysqldump") else TypeError(LaunchTypeError)), Connection(h, p, u))
  {
    ToolPrograms();
    OptionSetKeys(file, "");
    RenderBackupOptions(file);
    IssueSanitized(h, p, u, pw, "export", BackupOptions(file), environ, programs, None);
  }

  /** `backup()` called without a file dumps into `backup.sql`. */
  lemma BackupDefaultFile(h: Value, p: Value, u: Value, pw: Value, environ: map<string, string>, programs: set<string>)
    requires Truthy(h) && Truthy(p) && Truthy(u) && !h.List? && !p.List? && !u.List? && !pw.List?
    ensures Renderable(MySql.Flags, Credentials(h, p, u, pw))
    ensures var (res, _) := Issue(Credentials(h, p, u, pw), MySql.Tools, MySql.Flags, "export", BackupOptions(DefaultBackupFile), environ, programs, None);
      res.Success? ==> Str("--result-file=backup.sql") in res.value.command
  {
    BackupCommand(h, p, u, pw, DefaultBackupFile, environ, programs);
    DefaultResultFile();
  }

  lemma DefaultResultFile()
    ensures "--result-file=" + DefaultBackupFile == "--result-file=backup.sql"
  {
  }

  /**
   * The client command of `restore`: the program, the three connection flags
   * and `--database=name`, fed the cleaned dump; it starts exactly when the
   * password is a string and `mysql` is found.
   */
  lemma RestoreCommand(h: Value, p: Value, u: Value, pw: Value, dbName: string, body: string,
                       environ: map<string, string>, programs: set<string>)
    requires Truthy(h) && Truthy(p) && Truthy(u) && !h.List? && !p.List? && !u.List? && !pw.List? && dbName != ""
    ensures Renderable(MySql.Flags, Credentials(h, p, u, pw))
    ensures Issue(Credentials(h, p, u, pw), MySql.Tools, MySql.Flags, "main", RestoreOptions(dbName), environ, programs, Some(body)) ==
      if pw.Str? && "mysql" in programs then
        (Success(Invocation(
          [Str("mysql")] + ConnectionTokens(h, p, u) + [Str("--database=" + dbName)],
          PasswordEnv(environ, pw), Some(body))),
         Credentials(h, p, u, pw))
      else
        (Failure(if pw.Str? then FileNotFoundError("mysql") else TypeError(LaunchTypeError)), Connection(h, p, u))
  {
    ToolPrograms();
    OptionSetKeys("", dbName);
    RenderRestoreOptions(dbName);
    IssueSanitized(h, p, u, pw, "main", RestoreOptions(dbName), environ, programs, Some(body));
  }

  /**
   * The credentials `{'host': 'h', 'port': 3306, 'user': 'u', 'password': 1234}`:
   * `export('db')` writes to `db.sql` but raises TypeError, because `MYSQL_PWD`
   * would hold an integer; the password is then gone from the options, and
   * the next `export` raises KeyError('password').
   */
  lemma ExportIntPasswordLost(environ: map<string, string>, programs: set<string>)
    ensures ExportFileName("db", None) == "db.sql"
    ensures Renderable(MySql.Flags, Credentials(Str("h"), Int(3306), Str("u"), Int(1234)))
    ensures Renderable(MySql.Flags, ExportOptions("db.sql", "db"))
    ensures var (res, after) := Issue(Credentials(Str("h"), Int(3306), Str("u"), Int(1234)), MySql.Tools, MySql.Flags,
                                      "export", ExportOptions("db.sql", "db"), environ, programs, None);
      && res == Failure(TypeError(LaunchTypeError))
      && after == Connection(Str("h"), Int(3306), Str("u"))
      && Renderable(MySql.Flags, after)
      && Issue(after, MySql.Tools, MySql.Flags, "export", ExportOptions("db.sql", "db"), environ, programs, None).0
         == Failure(KeyError("password"))
  {
    ExportDbFileName();
    ExportCommand(Str("h"), Int(3306), Str("u"), Int(1234), "db", "db.sql", environ, programs);
    RenderExportOptions("db.sql", "db");
    RenderConnection(Str("h"), Int(3306), Str("u"));
    CredentialsShape(Str("h"), Int(3306), Str("u"), Int(1234));
  }

  lemma ExportDbFileName()
    ensures ExportFileName("db", None) == "db.sql"
  {
    assert !EndsWith("db", ".sql");
    assert "db" + ".sql" == "db.sql";
  }
}
