/**
 * The persisted records the three services work on, and the name check
 * that every service's isExist shares.
 */
module Records {
  import opened Base
  import opened Text

  /** The kinds of entity whose names are checked and locked. */
  datatype Entity = SourceEntity | CronJobEntity | UserEntity

  /**
   * The decision every isExist takes once the mapper has looked the name up:
   * `found` is the id stored under the name (if any), `id` the id of the
   * record being edited (absent when creating).
   */
  function IsNameTaken(found: Option<int>, id: Option<int>): bool {
    if id.Some? && found.Some? then found.value != id.value
    else found.Some? && found.value > 0
  }

  // ---- cron jobs ----

  datatype JobStatus = New | Start | Stop | Failed

  /** A row of the cron job table. Dates and times are milliseconds since the epoch. */
  datatype CronJob = CronJob(
    id: int,
    projectId: int,
    name: string,
    jobType: string,
    cronExpression: string,
    startDate: int,
    endDate: int,
    status: JobStatus,
    updateTime: Option<int>)

  // ---- data sources ----

  /** Connection settings of a source as a request carries them (password in clear). */
  datatype SourceConfig = SourceConfig(
    name: string,
    url: string,
    username: string,
    password: string,
    version: Option<string>,
    ext: bool)

  /** A row of the source table; its config holds the password encrypted. */
  datatype Source = Source(
    id: int,
    projectId: int,
    name: string,
    sourceType: string,
    config: SourceConfig)

  /** The fingerprint under which the connection pool keeps a pooled connection. */
  datatype ConnectionKey = ConnectionKey(
    name: string,
    url: string,
    username: string,
    password: string,
    version: Option<string>,
    ext: bool)

  /** The pool label of a source: its id, '@', its name. */
  function SourceLabel(id: int, name: string): string {
    IntToString(id) + "@" + name
  }

  /** The key of the pooled connection a stored source uses (as releaseSource builds it). */
  function PoolKey(s: Source): ConnectionKey {
    ConnectionKey(SourceLabel(s.id, s.name), s.config.url, s.config.username,
                  s.config.password, s.config.version, s.config.ext)
  }

  /** Sources with different ids or names never share a pool label. */
  lemma SourceLabelInjective(id1: int, name1: string, id2: int, name2: string)
    requires SourceLabel(id1, name1) == SourceLabel(id2, name2)
    ensures id1 == id2 && name1 == name2
  {
    var a, c := IntToString(id1), IntToString(id2);
    SplitAtSeparator(a, name1, c, name2, '@');
    IntToStringInjective(id1, id2);
  }
}
