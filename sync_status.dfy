/**
 * The sync-status object of the PHP front end (`Hempies_COA_Airtable`): the
 * credentials read from the environment, a running flag and a timestamped
 * log. `start_sync` has no body beyond the flag and the log entry. The clock
 * is an input.
 */
module SyncStatus {

  /** One entry of `sync_log`. */
  datatype LogEntry = LogEntry(time: string, message: string)

  /** The state `get_sync_status` exposes. */
  datatype Status = Status(running: bool, log: seq<LogEntry>)

  /** `$_ENV[key] ?? default`: the variable when it is set, even to "", and the default otherwise. */
  function EnvOr(env: map<string, string>, key: string, default: string): string
  {
    if key in env then env[key] else default
  }

  /** The message `start_sync` logs. */
  function StartMessage(testMode: bool): string
  {
    "Starting sync" + (if testMode then " in test mode" else "")
  }

  /** The message is one of exactly two strings, chosen by the test-mode flag. */
  lemma StartMessageSpec(testMode: bool)
    ensures StartMessage(testMode) == (if testMode then "Starting sync in test mode" else "Starting sync")
    ensures "Starting sync" <= StartMessage(testMode)
  {
  }

  /** The status after `start_sync`: running, with one more log entry. */
  function Started(s: Status, testMode: bool, now: string): Status
  {
    Status(true, s.log + [LogEntry(now, StartMessage(testMode))])
  }

  /** A call on the object: `start_sync` or `get_sync_status`. */
  datatype Call = StartSync(testMode: bool, now: string) | GetSyncStatus

  /** The status after a sequence of calls. */
  function Run(s: Status, calls: seq<Call>): Status
  {
    if calls == [] then s
    else
      var t := Run(s, calls[..|calls| - 1]);
      match calls[|calls| - 1]
      case StartSync(testMode, now) => Started(t, testMode, now)
      case GetSyncStatus => t
  }

  /** The number of `start_sync` calls in `calls`. */
  function Starts(calls: seq<Call>): nat
  {
    if calls == [] then 0
    else Starts(calls[..|calls| - 1]) + (if calls[|calls| - 1].StartSync? then 1 else 0)
  }

  /**
   * The log is append-only and has no cap: after any calls, the old log is a
   * prefix of the new one, which has grown by one entry per `start_sync`.
   * The flag is never cleared, and it is set once any `start_sync` happened.
   */
  lemma {:induction false} RunAppendsOnly(s: Status, calls: seq<Call>)
    ensures s.log <= Run(s, calls).log
    ensures |Run(s, calls).log| == |s.log| + Starts(calls)
    ensures s.running ==> Run(s, calls).running
    ensures Starts(calls) > 0 ==> Run(s, calls).running
    ensures !s.running && Starts(calls) == 0 ==> !Run(s, calls).running
  {
    if calls != [] {
      RunAppendsOnly(s, calls[..|calls| - 1]);
    }
  }

  /** Starting twice is not refused: the second start succeeds too, and both entries are logged. */
  lemma StartWhileRunning(s: Status, m1: bool, t1: string, m2: bool, t2: string)
    ensures Started(Started(s, m1, t1), m2, t2).running
    ensures Started(Started(s, m1, t1), m2, t2).log ==
              s.log + [LogEntry(t1, StartMessage(m1)), LogEntry(t2, StartMessage(m2))]
  {
  }

  class CoaAirtable {
    var squareAccessToken: string
    var airtableApiKey: string
    var airtableBaseId: string
    var airtableTableName: string
    var syncRunning: bool
    var syncLog: seq<LogEntry>

    function State(): Status
      reads this
    {
      Status(syncRunning, syncLog)
    }

    /** The credentials from the environment, `Products` for an unset table name, not running, and an empty log. */
    constructor (env: map<string, string>)
      ensures squareAccessToken == EnvOr(env, "SQUARE_ACCESS_TOKEN", "")
      ensures airtableApiKey == EnvOr(env, "AIRTABLE_API_KEY", "")
      ensures airtableBaseId == EnvOr(env, "AIRTABLE_BASE_ID", "")
      ensures airtableTableName == EnvOr(env, "AIRTABLE_TABLE_NAME", "Products")
      ensures !syncRunning && syncLog == []
    {
      syncRunning := false;
      syncLog := [];
      squareAccessToken := EnvOr(env, "SQUARE_ACCESS_TOKEN", "");
      airtableApiKey := EnvOr(env, "AIRTABLE_API_KEY", "");
      airtableBaseId := EnvOr(env, "AIRTABLE_BASE_ID", "");
      airtableTableName := EnvOr(env, "AIRTABLE_TABLE_NAME", "Products");
    }

    /** `start_sync`: set the flag, log the start, and report success, whatever the flag was before. */
    method StartSync(testMode: bool, now: string) returns (ok: bool)
      modifies this
      ensures ok
      ensures State() == Started(old(State()), testMode, now)
      ensures squareAccessToken == old(squareAccessToken) && airtableApiKey == old(airtableApiKey)
      ensures airtableBaseId == old(airtableBaseId) && airtableTableName == old(airtableTableName)
    {
      syncRunning := true;
      Log(StartMessage(testMode), now);
      return true;
    }

    /** `get_sync_status`: the flag and the log, with nothing changed. */
    method GetSyncStatus() returns (status: Status)
      ensures status == State()
    {
      return Status(syncRunning, syncLog);
    }

    /** `log`: append one timestamped entry. */
    method Log(message: string, now: string)
      modifies this
      ensures syncLog == old(syncLog) + [LogEntry(now, message)]
      ensures syncRunning == old(syncRunning)
      ensures squareAccessToken == old(squareAccessToken) && airtableApiKey == old(airtableApiKey)
      ensures airtableBaseId == old(airtableBaseId) && airtableTableName == old(airtableTableName)
    {
      syncLog := syncLog + [LogEntry(now, message)];
    }
  }
}
