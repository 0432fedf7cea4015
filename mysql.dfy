/**
 * What the two MySQL administrators share: the client programs they run, the
 * command-line spelling of each known option, and the rule for naming an
 * export file (dbgoat/admin.py and dbpal/dbpal.py define these identically).
 */
module MySql {
  import opened Wrappers
  import opened Values
  import opened Strings
  import opened OrderedDicts
  import opened Auxiliar

  /** The client program behind each tool name. */
  const Tools: map<string, string> := map["main" := "mysql", "admin" := "mysqladmin", "export" := "mysqldump"]

  /**
   * The known options and their flags: the six connection options of the base
   * administrator, each given its MySQL spelling, plus the two export options.
   */
  const Flags: map<string, string> := map[
    "host" := "--host",
    "port" := "--port",
    "user" := "--user",
    "password" := "--password",
    "database" := "--database",
    "statement" := "--execute",
    "databases" := "--databases",
    "output" := "--result-file"]

  /** Every known option is spelled as a long flag, and none is a `__` pattern key. */
  lemma FlagsAreLong()
    ensures forall k :: k in Flags ==> StartsWith(Flags[k], "--") && !StartsWith(k, "__")
  {
    forall k | k in Flags ensures StartsWith(Flags[k], "--") && !StartsWith(k, "__") {
      assert Flags[k][..2] == "--";
      assert k[0] != '_';
    }
  }

  /** The export file: `db_name` unless one is given, with `.sql` appended unless it already ends so. */
  function ExportFileName(dbName: string, outputFile: Option<string>): (r: string)
    ensures EndsWith(r, ".sql")
  {
    var name := if outputFile.None? then dbName else outputFile.value;
    if EndsWith(name, ".sql") then name
    else
      assert (name + ".sql")[|name|..] == ".sql";
      name + ".sql"
  }

  /** The name is the given (or default) one, extended by `.sql` exactly when it lacks that suffix. */
  lemma ExportFileNameSpec(dbName: string, outputFile: Option<string>)
    ensures var name := if outputFile.None? then dbName else outputFile.value;
      ExportFileName(dbName, outputFile) == if EndsWith(name, ".sql") then name else name + ".sql"
    ensures var name := if outputFile.None? then dbName else outputFile.value;
      StartsWith(ExportFileName(dbName, outputFile), name)
  {
    var name := if outputFile.None? then dbName else outputFile.value;
    assert (name + ".sql")[..|name|] == name;
  }

  /** Naming an already named file again leaves it unchanged, whatever the database. */
  lemma ExportFileNameIdempotent(dbName: string, otherDb: string, outputFile: Option<string>)
    ensures ExportFileName(otherDb, Some(ExportFileName(dbName, outputFile))) == ExportFileName(dbName, outputFile)
  {
  }

  /** The programs of the tools the commands use. */
  lemma ToolPrograms()
    ensures "main" in Tools && Tools["main"] == "mysql"
    ensures "export" in Tools && Tools["export"] == "mysqldump"
  {
  }

  /** The flags of the options the commands render. */
  lemma FlagEntries()
    ensures "host" in Flags && Flags["host"] == "--host"
    ensures "port" in Flags && Flags["port"] == "--port"
    ensures "user" in Flags && Flags["user"] == "--user"
    ensures "output" in Flags && Flags["output"] == "--result-file"
    ensures "databases" in Flags && Flags["databases"] == "--databases"
    ensures "database" in Flags && Flags["database"] == "--database"
    ensures "statement" in Flags && Flags["statement"] == "--execute"
    ensures "__column_statistics" !in Flags && StartsWith("__column_statistics", "__")
    ensures "__all_databases" !in Flags && StartsWith("__all_databases", "__")
    ensures "db_name" !in Flags && !StartsWith("db_name", "__")
  {
    ConnectionFlags();
    CommandFlags();
    UnknownKeys();
  }

  lemma ConnectionFlags()
    ensures "host" in Flags && Flags["host"] == "--host"
    ensures "port" in Flags && Flags["port"] == "--port"
    ensures "user" in Flags && Flags["user"] == "--user"
  {
  }

  lemma CommandFlags()
    ensures "output" in Flags && Flags["output"] == "--result-file"
    ensures "databases" in Flags && Flags["databases"] == "--databases"
    ensures "database" in Flags && Flags["database"] == "--database"
    ensures "statement" in Flags && Flags["statement"] == "--execute"
  {
  }

  lemma UnknownKeys()
    ensures "__column_statistics" !in Flags && StartsWith("__column_statistics", "__")
    ensures "__all_databases" !in Flags && StartsWith("__all_databases", "__")
    ensures "db_name" !in Flags && !StartsWith("db_name", "__")
  {
    FlagsAreLong();
    assert "__column_statistics"[..2] == "__" && "__all_databases"[..2] == "__";
    assert "db_name"[0] == 'd';
  }

  /** A truthy scalar `host` renders as `--host=value`. */
  lemma HostEntry(v: Value)
    requires Truthy(v) && !v.List?
    ensures EntryRenderable(Flags, "host", v)
    ensures RenderEntry(Flags, "host", v) == [Str("--host=" + Format(v))]
  {
    ConnectionFlags();
    KnownFlagEntry("host", "--host", v);
    assert "--host" + "=" + Format(v) == "--host=" + Format(v);
  }

  /** A truthy scalar `port` renders as `--port=value`. */
  lemma PortEntry(v: Value)
    requires Truthy(v) && !v.List?
    ensures EntryRenderable(Flags, "port", v)
    ensures RenderEntry(Flags, "port", v) == [Str("--port=" + Format(v))]
  {
    ConnectionFlags();
    KnownFlagEntry("port", "--port", v);
    assert "--port" + "=" + Format(v) == "--port=" + Format(v);
  }

  /** A truthy scalar `user` renders as `--user=value`. */
  lemma UserEntry(v: Value)
    requires Truthy(v) && !v.List?
    ensures EntryRenderable(Flags, "user", v)
    ensures RenderEntry(Flags, "user", v) == [Str("--user=" + Format(v))]
  {
    ConnectionFlags();
    KnownFlagEntry("user", "--user", v);
    assert "--user" + "=" + Format(v) == "--user=" + Format(v);
  }

  /** `output=file` renders as `--result-file=file`. */
  lemma OutputEntry(file: string)
    requires file != ""
    ensures EntryRenderable(Flags, "output", Str(file))
    ensures RenderEntry(Flags, "output", Str(file)) == [Str("--result-file=" + file)]
  {
    CommandFlags();
    KnownFlagEntry("output", "--result-file", Str(file));
    assert "--result-file" + "=" + file == "--result-file=" + file;
  }

  /** `__column_statistics=0` renders as `--column-statistics=0`. */
  lemma ColumnStatisticsEntry()
    ensures EntryRenderable(Flags, "__column_statistics", Int(0))
    ensures RenderEntry(Flags, "__column_statistics", Int(0)) == [Str("--column-statistics=0")]
  {
    UnknownKeys();
    DashedColumnStatistics();
    PatternEntryNullness(Flags, "__column_statistics", Int(0));
    assert "--column-statistics" + "=0" == "--column-statistics=0";
  }

  /** `databases=None` renders as a bare `--databases`. */
  lemma DatabasesEntry()
    ensures EntryRenderable(Flags, "databases", Null)
    ensures RenderEntry(Flags, "databases", Null) == [Str("--databases")]
  {
    CommandFlags();
  }

  /** `__all_databases=None` renders as a bare `--all-databases`. */
  lemma AllDatabasesEntry()
    ensures EntryRenderable(Flags, "__all_databases", Null)
    ensures RenderEntry(Flags, "__all_databases", Null) == [Str("--all-databases")]
  {
    UnknownKeys();
    DashedAllDatabases();
  }

  /** `db_name=name` is positional: it renders as the name itself. */
  lemma DbNameEntry(dbName: string)
    ensures EntryRenderable(Flags, "db_name", Str(dbName))
    ensures RenderEntry(Flags, "db_name", Str(dbName)) == [Str(dbName)]
  {
    UnknownKeys();
  }

  /** `database=name` renders as `--database=name`. */
  lemma DatabaseEntry(dbName: string)
    requires dbName != ""
    ensures EntryRenderable(Flags, "database", Str(dbName))
    ensures RenderEntry(Flags, "database", Str(dbName)) == [Str("--database=" + dbName)]
  {
    CommandFlags();
    KnownFlagEntry("database", "--database", Str(dbName));
    assert "--database" + "=" + dbName == "--database=" + dbName;
  }

  /** `statement=text` renders as `--execute=text`. */
  lemma StatementEntry(statement: string)
    requires statement != ""
    ensures EntryRenderable(Flags, "statement", Str(statement))
    ensures RenderEntry(Flags, "statement", Str(statement)) == [Str("--execute=" + statement)]
  {
    CommandFlags();
    KnownFlagEntry("statement", "--execute", Str(statement));
    assert "--execute" + "=" + statement == "--execute=" + statement;
  }

  /** `__column_statistics` and `__all_databases` are spelled with dashes. */
  lemma DashedExportKeys()
    ensures Dashed("__column_statistics") == "--column-statistics"
    ensures Dashed("__all_databases") == "--all-databases"
  {
    DashedColumnStatistics();
    DashedAllDatabases();
  }

  lemma DashedColumnStatistics()
    ensures Dashed("__column_statistics") == "--column-statistics"
  {
    DashedKey("column", "statistics", "__column_statistics", "--column-statistics");
  }

  lemma DashedAllDatabases()
    ensures Dashed("__all_databases") == "--all-databases"
  {
    DashedKey("all", "databases", "__all_databases", "--all-databases");
  }

  /** A key `__a_b` whose words have no underscore dashes to `--a-b`. */
  lemma DashedKey(a: string, b: string, key: string, dashed: string)
    requires '_' !in a && '_' !in b
    requires key == "__" + a + "_" + b && dashed == "--" + a + "-" + b
    ensures Dashed(key) == dashed
  {
    DashedPlain(a);
    DashedPlain(b);
    DashedPlain("");
    assert "__" == "_" + "_";
    DashedConcat("_", "_");
    DashedConcat("__", a);
    DashedConcat("__" + a, "_");
    DashedConcat("__" + a + "_", b);
    assert "-" + "-" == "--";
  }

  /** A known flag with a truthy scalar renders as one `flag=value` token. */
  lemma KnownFlagEntry(key: string, flag: string, v: Value)
    requires key in Flags && Flags[key] == flag && Truthy(v) && !v.List?
    ensures EntryRenderable(Flags, key, v)
    ensures RenderEntry(Flags, key, v) == [Str(flag + "=" + Format(v))]
  {
  }
}
