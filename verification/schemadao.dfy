/**
 * `DatabaseSchemaDao`: the schema history table `qd_schema_update` and the
 * operation that runs a list of SQL scripts and records the schema version
 * they produce.
 */
module DatabaseSchemaDao {
  import opened Jdk
  import DSE = DatabaseScriptExecutor
  import DV = DomainVersion

  const SQL_SELECT_SCHEMA_UPDATES: string := "SELECT * FROM qd_schema_update u ORDER BY u.schema_update_id DESC"

  /**
   * A row of `qd_schema_update` (the `SchemaUpdate` entity). The version
   * columns are nullable Integers; the applied-at timestamp is not modelled.
   */
  datatype SchemaUpdate = SchemaUpdate(id: int, major: Option<Int32>, minor: Option<Int32>, maintenance: Option<Int32>)

  predicate IdsAscending(rows: seq<SchemaUpdate>)
  {
    forall i, j :: 0 <= i < j < |rows| ==> rows[i].id < rows[j].id
  }

  predicate IdsDescending(rows: seq<SchemaUpdate>)
  {
    forall i, j :: 0 <= i < j < |rows| ==> rows[i].id > rows[j].id
  }

  /** `ResultSet.getInt`: an SQL NULL reads as 0. */
  function GetInt(column: Option<Int32>): (r: Int32)
    ensures column.Some? ==> r == column.value
    ensures column.None? ==> r == 0
  {
    if column.Some? then column.value else 0
  }

  /** The row mapper of `getSchemaUpdates`: every column is read with `getInt`, so none is null. */
  function ReadRow(u: SchemaUpdate): (r: SchemaUpdate)
    ensures r.id == u.id && r.major.Some? && r.minor.Some? && r.maintenance.Some?
    ensures u.major.Some? && u.minor.Some? && u.maintenance.Some? ==> r == u
  {
    SchemaUpdate(u.id, Some(GetInt(u.major)), Some(GetInt(u.minor)), Some(GetInt(u.maintenance)))
  }

  /**
   * The result of `SQL_SELECT_SCHEMA_UPDATES` (`ORDER BY schema_update_id DESC`)
   * through the row mapper, given rows stored in id order.
   */
  function QueryRows(rows: seq<SchemaUpdate>): (r: seq<SchemaUpdate>)
    requires IdsAscending(rows)
    ensures |r| == |rows|
    ensures forall k :: 0 <= k < |r| ==> r[k] == ReadRow(rows[|rows| - 1 - k])
    ensures IdsDescending(r)
  {
    if |rows| == 0 then []
    else [ReadRow(rows[|rows| - 1])] + QueryRows(rows[..|rows| - 1])
  }

  /**
   * The history table and the connection its session uses. Rows are kept in
   * insertion order; ids come from a generator that only grows.
   */
  class SchemaDao {
    var tableExists: bool
    var rows: seq<SchemaUpdate>
    var nextId: int
    const conn: DSE.Connection

    predicate Valid()
      reads this
    {
      IdsAscending(rows) && forall k :: 0 <= k < |rows| ==> rows[k].id < nextId
    }

    constructor (conn: DSE.Connection, tableExists: bool, rows: seq<SchemaUpdate>, nextId: int)
      requires IdsAscending(rows) && forall k :: 0 <= k < |rows| ==> rows[k].id < nextId
      ensures Valid()
      ensures this.conn == conn && this.tableExists == tableExists && this.rows == rows && this.nextId == nextId
    {
      this.conn := conn;
      this.tableExists := tableExists;
      this.rows := rows;
      this.nextId := nextId;
    }

    /** `getSchemaUpdates`: every row, most recent (greatest id) first. */
    function GetSchemaUpdates(): (updates: seq<SchemaUpdate>)
      reads this
      requires Valid()
      ensures |updates| == |rows|
      ensures IdsDescending(updates)
      ensures forall k :: 0 <= k < |rows| ==> ReadRow(rows[k]) in updates
      ensures forall u :: u in updates ==> exists k :: 0 <= k < |rows| && u == ReadRow(rows[k])
    {
      var r := QueryRows(rows);
      assert forall k :: 0 <= k < |rows| ==> r[|rows| - 1 - k] == ReadRow(rows[k]);
      r
    }

    /**
     * `getLatestSchemaUpdate`: null when the table does not exist or is
     * empty, else the first row of the descending query, which is the row
     * with the greatest id: the one inserted last.
     */
    function GetLatestSchemaUpdate(): (r: Option<SchemaUpdate>)
      reads this
      requires Valid()
      ensures r.None? <==> !tableExists || |rows| == 0
      ensures r.Some? ==> r.value == ReadRow(rows[|rows| - 1])
      ensures r.Some? ==> forall k :: 0 <= k < |rows| ==> rows[k].id <= r.value.id
    {
      if tableExists then
        var updates := QueryRows(rows);
        if |updates| == 0 then None else Some(updates[0])
      else None
    }

    /** `insertSchemaUpdate`: saves one row under a freshly generated id and returns that id. */
    method InsertSchemaUpdate(major: Option<Int32>, minor: Option<Int32>, maintenance: Option<Int32>) returns (id: int)
      requires Valid()
      modifies this`rows, this`nextId, this`tableExists
      ensures Valid() && tableExists
      ensures id == old(nextId)
      ensures rows == old(rows) + [SchemaUpdate(id, major, minor, maintenance)]
    {
      id := nextId;
      rows := rows + [SchemaUpdate(id, major, minor, maintenance)];
      nextId := nextId + 1;
      tableExists := true;
    }

    /**
     * `initializeOrUpgradeSchema`: runs the scripts with a default-configured
     * executor on the session's connection (no custom separator, `--`
     * comments, every failed statement fatal, no commits), then records the
     * schema version (numbers only; the qualifier is not stored). The row is
     * inserted exactly when the scripts run through; a script failure is the
     * result and inserts no row.
     */
    method InitializeOrUpgradeSchema(scriptUrls: seq<string>, schemaVersion: DV.Version,
                                     read: string -> Option<seq<string>>)
      returns (r: Result<(), DSE.ScriptError>)
      requires Valid()
      modifies this`rows, this`nextId, this`tableExists, conn
      ensures Valid()
      ensures var run := DSE.RunScripts(scriptUrls, read, conn.accepts, old(conn.sent), None, DSE.DEFAULT_COMMENT_PREFIX,
                                        DSE.AsWrittenTolerance(false, false));
              r == run.result && conn.sent == old(conn.sent) + run.sent
      ensures r.Ok? ==> tableExists
                        && rows == old(rows) + [SchemaUpdate(old(nextId), schemaVersion.major, schemaVersion.minor, schemaVersion.maintenance)]
      ensures r.Err? ==> rows == old(rows) && nextId == old(nextId) && tableExists == old(tableExists)
      ensures conn.commits == old(conn.commits)
    {
      var scriptExecutor := new DSE.ScriptExecutor();
      scriptExecutor.AddScriptUrls(scriptUrls);
      assert scriptExecutor.scriptUrls == scriptUrls && scriptExecutor.separator.None?;
      assert scriptExecutor.commentPrefix == DSE.DEFAULT_COMMENT_PREFIX;
      assert !scriptExecutor.continueOnError && !scriptExecutor.ignoreFailedDrops && !scriptExecutor.commitAfterScript;
      r := scriptExecutor.ExecuteScripts(conn, read);
      if r.Err? {
        return;
      }
      var id := InsertSchemaUpdate(schemaVersion.major, schemaVersion.minor, schemaVersion.maintenance);
    }
  }
}
