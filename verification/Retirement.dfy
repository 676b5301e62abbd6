/** The ActorOps v1 retirement: what it counts, what it refuses and what it rewrites. */
module Retirement {
  import opened Common

  type Key = int
  /** An instant in microseconds. */
  type Time = int

  datatype Job = Job(
    jobType: string, status: string, attempts: int, startedAt: Option<Time>,
    workerId: Option<string>, claimToken: Option<string>, lockedUntil: Option<Time>,
    result: Option<string>, errorCode: Option<string>, errorMessage: Option<string>,
    cancelledAt: Option<Time>, finishedAt: Option<Time>, updatedAt: Time)

  datatype Attempt = Attempt(
    status: string, lastErrorCode: Option<string>, costFinal: int,
    reserved: Option<real>, actual: Option<real>)

  datatype Run = Run(
    logicalRunId: Option<Key>, status: string, lastErrorCode: Option<string>, chargeFinal: int,
    chargeReserved: Option<real>, chargeActual: Option<real>)

  /** A row of another v1 table; a column the table does not have is None on every row. */
  datatype Fact = Fact(stage: Option<string>, status: Option<string>, costFinal: Option<int>)

  datatype Settings = Settings(enabled: int, updatedAt: Time)

  datatype Profile = Profile(
    freshnessEnabled: int, authorizedAt: Option<Time>, authorizedBy: Option<Key>,
    freshnessStatus: string, nextCheckAt: Option<Time>, updatedAt: Time)

  datatype Route = Route(runtimeMode: string, generation: int, updatedAt: Time)

  /** The JSON value of a source's config; text that does not parse reads as an empty object. */
  datatype Config = NotAnObject | Object(profileId: string)

  datatype Source = Source(sourceType: string, config: Config, enabled: int, updatedAt: Time)

  datatype Binding = Binding(
    sourceId: Key, status: string, version: int, preferredCandidate: Option<Key>, updatedAt: Time)

  /** The content of the service database. `sound` is the verdict of its integrity and foreign-key
      checks, `shape` the text of its schema and `rest` everything no command here reads or writes.
      `unjoinable` says that there is a table of runs but none of attempts, or that the runs have no column
      naming their attempt. */
  datatype Database = Database(
    jobs: map<Key, Job>,
    settings: map<Key, Settings>,
    profiles: map<Key, Profile>,
    routes: map<Key, Route>,
    sources: map<Key, Source>,
    bindings: Option<map<Key, Binding>>,
    legacyBound: set<Key>,
    attempts: map<Key, Attempt>,
    runs: map<Key, Run>,
    facts: map<string, map<Key, Fact>>,
    heartbeats: map<Key, Option<Time>>,
    unjoinable: bool,
    shape: string,
    sound: bool,
    rest: int)

  const RETIREMENT_CODE := "actorops_v1_retired"
  const INVALIDATION := "{\"invalidation_reason\": \"actorops_v1_retired\"}"
  const STALE: int := 35_000_000

  // ---------------------------------------------------------------- counting

  predicate V1Job(job: Job) {
    || job.jobType == "apify_actor_discovery"
    || job.jobType == "apify_actor_validation"
    || job.jobType == "apify_actor_canary_batch"
    || job.jobType == "apify_actor_freshness_check"
  }

  predicate NeverStarted(job: Job) {
    job.status == "queued" && job.attempts == 0 && job.startedAt.None?
  }

  predicate SafeJob(job: Job) {
    V1Job(job) && NeverStarted(job)
  }

  predicate IsolatedJob(job: Job) {
    V1Job(job) && (job.status == "queued" || job.status == "running") && !NeverStarted(job)
  }

  function SafeJobs(jobs: map<Key, Job>): set<Key> {
    set j | j in jobs && SafeJob(jobs[j])
  }

  function IsolatedJobs(jobs: map<Key, Job>): set<Key> {
    set j | j in jobs && IsolatedJob(jobs[j])
  }

  /** SQLite's `text LIKE '%pattern%'`: ASCII letters match in either case and `_` matches any character. */
  predicate Like(text: string, pattern: string) {
    exists i :: 0 <= i <= |text| - |pattern| && LikeAt(text, pattern, i)
  }

  predicate LikeAt(text: string, pattern: string, i: nat)
    requires i + |pattern| <= |text|
  {
    forall j :: 0 <= j < |pattern| ==> pattern[j] == '_' || LowerChar(text[i + j]) == LowerChar(pattern[j])
  }

  predicate UnknownStart(status: string, code: Option<string>) {
    || status == "start_outcome_unknown"
    || Like(code.GetOr(""), "unknown_start")
    || Like(code.GetOr(""), "start_outcome_unknown")
  }

  predicate Unsettled(final: int, reserved: Option<real>, actual: Option<real>) {
    final == 0 && (reserved.GetOr(0.0) > 0.0 || actual.Some?)
  }

  /** Runs that belong to a v1 attempt. */
  predicate V1Run(db: Database, run: Run) {
    run.logicalRunId.Some? && run.logicalRunId.value in db.attempts
  }

  const COST_TABLES: seq<string> := [
    "apify_actor_validations", "apify_actor_canary_batches", "apify_actor_canary_batch_items",
    "apify_actor_freshness_checks", "apify_actor_freshness_results"]

  /** Where the runs cannot be joined, the count of costs and starts ends before these tables. */
  function CostTables(db: Database): seq<string> {
    if db.unjoinable then [] else COST_TABLES
  }

  const STATE_TABLES: seq<string> := [
    "apify_actor_discovery_runs", "apify_actor_validations", "apify_actor_canary_batches",
    "apify_actor_pool_stages", "apify_actor_freshness_checks", "apify_actor_auto_pool_runs"]

  function Rows(db: Database, table: string): map<Key, Fact> {
    if table in db.facts then db.facts[table] else map[]
  }

  function NonterminalStates(table: string): seq<string> {
    if table == "apify_actor_discovery_runs" then
      ["queued", "searching", "metadata", "ranking", "static_validation", "input_validation"]
    else if table == "apify_actor_validations" then ["queued", "running", "blocked_unknown_start"]
    else if table == "apify_actor_canary_batches" then
      ["queued", "preflighting", "running", "blocked_unknown_start"]
    else if table == "apify_actor_pool_stages" then
      ["queued", "validating_route", "validating_sources", "apply_ready", "blocked_unknown_start"]
    else if table == "apify_actor_freshness_checks" then ["queued", "running", "blocked_unknown_start"]
    else if table == "apify_actor_auto_pool_runs" then ["running"]
    else []
  }

  predicate Nonterminal(table: string, fact: Fact) {
    var state := if table == "apify_actor_discovery_runs" then fact.stage else fact.status;
    state.Some? && state.value in NonterminalStates(table)
  }

  function NonterminalCount(db: Database, tables: seq<string>): nat {
    if tables == [] then 0
    else
      var rows := Rows(db, tables[0]);
      |set k | k in rows && Nonterminal(tables[0], rows[k])| + NonterminalCount(db, tables[1..])
  }

  function BlockedCount(db: Database, tables: seq<string>): nat {
    if tables == [] then 0
    else
      var rows := Rows(db, tables[0]);
      |set k | k in rows && rows[k].status == Some("blocked_unknown_start")| + BlockedCount(db, tables[1..])
  }

  function OpenCostCount(db: Database, tables: seq<string>): nat {
    if tables == [] then 0
    else
      var rows := Rows(db, tables[0]);
      |set k | k in rows && rows[k].costFinal == Some(0)| + OpenCostCount(db, tables[1..])
  }

  function UnknownCount(db: Database): nat {
    |set a | a in db.attempts && UnknownStart(db.attempts[a].status, db.attempts[a].lastErrorCode)|
    + |set r | r in db.runs && V1Run(db, db.runs[r]) && UnknownStart(db.runs[r].status, db.runs[r].lastErrorCode)|
    + BlockedCount(db, CostTables(db))
  }

  function UnsettledCount(db: Database): nat {
    |set a | a in db.attempts
             && Unsettled(db.attempts[a].costFinal, db.attempts[a].reserved, db.attempts[a].actual)|
    + |set r | r in db.runs && V1Run(db, db.runs[r])
               && Unsettled(db.runs[r].chargeFinal, db.runs[r].chargeReserved, db.runs[r].chargeActual)|
    + OpenCostCount(db, CostTables(db))
  }

  function EnabledSettings(settings: map<Key, Settings>): set<Key> {
    set s | s in settings && settings[s].enabled == 1
  }

  function FreshProfiles(profiles: map<Key, Profile>): set<Key> {
    set p | p in profiles && profiles[p].freshnessEnabled == 1
  }

  function Standing(db: Database): nat {
    |EnabledSettings(db.settings)| + |FreshProfiles(db.profiles)|
  }

  function ShadowRoutes(routes: map<Key, Route>): set<Key> {
    set r | r in routes && routes[r].runtimeMode == "shadow"
  }

  predicate ProfileHint(source: Source) {
    && source.sourceType == "apify_social"
    && source.config.Object?
    && exists c :: c in source.config.profileId && !IsSpace(c)
  }

  /** No binding of the source, or one that is not ready: what the LEFT JOIN lets through. */
  predicate Unready(bindings: map<Key, Binding>, source: Key) {
    || (forall b :: b in bindings ==> bindings[b].sourceId != source)
    || (exists b :: b in bindings && bindings[b].sourceId == source && bindings[b].status != "ready")
  }

  function LegacySources(db: Database): set<Key> {
    if db.bindings.None? then {} else set s | s in db.sources && IsLegacy(db, s)
  }

  predicate IsLegacy(db: Database, s: Key)
    requires s in db.sources && db.bindings.Some?
  {
    && db.sources[s].enabled == 1
    && db.sources[s].config.Object?
    && (ProfileHint(db.sources[s]) || s in db.legacyBound)
    && Unready(db.bindings.value, s)
  }

  /** A heartbeat that does not parse counts as an active worker. */
  predicate Active(beat: Option<Time>, now: Time) {
    beat.None? || now - beat.value < STALE
  }

  function ActiveWorkers(db: Database, now: Time): set<Key> {
    set w | w in db.heartbeats && Active(db.heartbeats[w], now)
  }

  // ---------------------------------------------------------------- refusing

  datatype Summary = Summary(
    active: nat, unknown: nat, unsettled: nat, nonterminal: nat, safe: nat, isolated: nat,
    sources: set<Key>, standing: nat, shadow: nat)

  function Summarize(db: Database, now: Time): Summary {
    Summary(|ActiveWorkers(db, now)|, UnknownCount(db), UnsettledCount(db),
            NonterminalCount(db, STATE_TABLES), |SafeJobs(db.jobs)|, |IsolatedJobs(db.jobs)|,
            LegacySources(db), Standing(db), |ShadowRoutes(db.routes)|)
  }

  datatype Error =
    | ServicesRunning | BadWindow | WorkerActive | UnknownStartRemains | CostUnsettled | FactsNonterminal
    | JobIsolation | SourceIsolation | IsolationMismatch | CheckFailed | HashMismatch | ReceiptExists
    | NoReceipt | ShapeMismatch | BlockersRemain

  /** The counts the operator confirms on the command line. */
  datatype Confirmed = Confirmed(jobs: Option<int>, sources: Option<int>)

  function RequireApplySafe(s: Summary, c: Confirmed): (error: Option<Error>)
    ensures error.None? <==>
      && s.active == 0 && s.unknown == 0 && s.unsettled == 0 && s.nonterminal == 0
      && c.jobs.GetOr(0) == s.isolated && c.sources.GetOr(0) == |s.sources|
  {
    if s.active != 0 then Some(WorkerActive)
    else if s.unknown != 0 then Some(UnknownStartRemains)
    else if s.unsettled != 0 then Some(CostUnsettled)
    else if s.nonterminal != 0 then Some(FactsNonterminal)
    else if s.isolated != 0 && c.jobs != Some(s.isolated) then Some(JobIsolation)
    else if |s.sources| != 0 && c.sources != Some(|s.sources|) then Some(SourceIsolation)
    else if !(c.jobs in {None, Some(s.isolated)}) || !(c.sources in {None, Some(|s.sources|)}) then
      Some(IsolationMismatch)
    else None
  }

  // ---------------------------------------------------------------- rewriting

  function CancelJob(job: Job, stamp: Time): Job {
    job.(status := "cancelled", workerId := None, claimToken := None, lockedUntil := None,
         result := Some(INVALIDATION), errorCode := Some(RETIREMENT_CODE), errorMessage := None,
         cancelledAt := Some(job.cancelledAt.GetOr(stamp)), finishedAt := Some(job.finishedAt.GetOr(stamp)),
         updatedAt := stamp)
  }

  function RetiredJobs(jobs: map<Key, Job>, stamp: Time): map<Key, Job> {
    map j | j in jobs :: if SafeJob(jobs[j]) then CancelJob(jobs[j], stamp) else jobs[j]
  }

  function RetiredSettings(settings: map<Key, Settings>, stamp: Time): map<Key, Settings> {
    map s | s in settings :: if settings[s].enabled == 1 then Settings(0, stamp) else settings[s]
  }

  function RetiredProfiles(profiles: map<Key, Profile>, stamp: Time): map<Key, Profile> {
    map p | p in profiles ::
      if profiles[p].freshnessEnabled == 1 then Profile(0, None, None, "disabled", None, stamp) else profiles[p]
  }

  function RetiredRoutes(routes: map<Key, Route>, stamp: Time): map<Key, Route> {
    map r | r in routes ::
      if routes[r].runtimeMode == "shadow" then Route("disabled", routes[r].generation + 1, stamp) else routes[r]
  }

  function IsolatedSources(sources: map<Key, Source>, ids: set<Key>, stamp: Time): map<Key, Source> {
    map s | s in sources ::
      if s in ids && sources[s].enabled == 1 then sources[s].(enabled := 0, updatedAt := stamp) else sources[s]
  }

  function IsolatedBindings(bindings: map<Key, Binding>, ids: set<Key>, stamp: Time): map<Key, Binding> {
    map b | b in bindings ::
      if bindings[b].sourceId in ids && bindings[b].status != "disabled" then
        bindings[b].(status := "disabled", version := bindings[b].version + 1, preferredCandidate := None,
                     updatedAt := stamp)
      else bindings[b]
  }

  /** All updates of one retirement, in the order the transaction issues them. */
  function Retire(db: Database, stamp: Time): Database {
    var ids := LegacySources(db);
    db.(jobs := RetiredJobs(db.jobs, stamp),
        settings := RetiredSettings(db.settings, stamp),
        profiles := RetiredProfiles(db.profiles, stamp),
        routes := RetiredRoutes(db.routes, stamp),
        sources := IsolatedSources(db.sources, ids, stamp),
        bindings := if db.bindings.None? then None
                    else Some(IsolatedBindings(db.bindings.value, ids, stamp)))
  }

  datatype Report = Report(jobsCancelled: nat, standingDisabled: nat, shadowDisabled: nat,
                           sourcesIsolated: nat, isolatedJobs: nat)

  /** The transaction of `apply`; `sound` is the verdict of the checks on the rewritten content. */
  function Transact(db: Database, c: Confirmed, now: Time, sound: bool): Result<(Database, Report), Error> {
    var s := Summarize(db, now);
    var refused := RequireApplySafe(s, c);
    if refused.Some? then Err(refused.value)
    else if !sound then Err(CheckFailed)
    else Ok((Retire(db, now).(sound := true), Report(s.safe, s.standing, s.shadow, |s.sources|, s.isolated)))
  }

  // ---------------------------------------------------------------- the tables as the script changes them

  class Store {
    var jobs: map<Key, Job>
    var settings: map<Key, Settings>
    var profiles: map<Key, Profile>
    var routes: map<Key, Route>
    var sources: map<Key, Source>
    var bindings: Option<map<Key, Binding>>
    var sound: bool
    const others: Database

    /** The whole content: the tables above, and those of `others` that no command writes. */
    function Contents(): Database
      reads this
    {
      others.(jobs := jobs, settings := settings, profiles := profiles, routes := routes,
              sources := sources, bindings := bindings, sound := sound)
    }

    constructor (db: Database)
      ensures Contents() == db
    {
      others := db;
      jobs, settings, profiles, routes := db.jobs, db.settings, db.profiles, db.routes;
      sources, bindings, sound := db.sources, db.bindings, db.sound;
    }

    method CancelSafeJobs(stamp: Time) returns (count: nat)
      modifies `jobs
      ensures jobs == RetiredJobs(old(jobs), stamp)
      ensures count == |SafeJobs(old(jobs))|
    {
      count := |SafeJobs(jobs)|;
      jobs := map j | j in jobs :: if SafeJob(jobs[j]) then CancelJob(jobs[j], stamp) else jobs[j];
    }

    method DisableStandingAuthorizations(stamp: Time) returns (changed: nat)
      modifies `settings, `profiles
      ensures settings == RetiredSettings(old(settings), stamp)
      ensures profiles == RetiredProfiles(old(profiles), stamp)
      ensures changed == old(Standing(Contents()))
    {
      changed := |EnabledSettings(settings)|;
      settings := RetiredSettings(settings, stamp);
      changed := changed + |FreshProfiles(profiles)|;
      profiles := RetiredProfiles(profiles, stamp);
    }

    method DisableShadowRoutes(stamp: Time) returns (count: nat)
      modifies `routes
      ensures routes == RetiredRoutes(old(routes), stamp)
      ensures count == |ShadowRoutes(old(routes))|
    {
      count := |ShadowRoutes(routes)|;
      routes := RetiredRoutes(routes, stamp);
    }

    method IsolateSources(ids: set<Key>, stamp: Time) returns (count: nat)
      modifies `sources, `bindings
      ensures sources == IsolatedSources(old(sources), ids, stamp)
      ensures bindings == if old(bindings).None? then None
                          else Some(IsolatedBindings(old(bindings).value, ids, stamp))
      ensures count == |ids|
    {
      if ids == {} {
        assert IsolatedSources(sources, ids, stamp) == sources;
        assert bindings.Some? ==> IsolatedBindings(bindings.value, ids, stamp) == bindings.value;
        return 0;
      }
      sources := IsolatedSources(sources, ids, stamp);
      if bindings.Some? {
        bindings := Some(IsolatedBindings(bindings.value, ids, stamp));
      }
      return |ids|;
    }

    /** The four updates of the transaction, on the source ids its own summary found. */
    method RetireAll(ids: set<Key>, stamp: Time) returns (report: Report)
      requires ids == LegacySources(Contents())
      modifies this
      ensures Contents() == Retire(old(Contents()), stamp)
      ensures report == Report(|SafeJobs(old(jobs))|, old(Standing(Contents())), |ShadowRoutes(old(routes))|, |ids|, 0)
    {
      hide SafeJobs, ShadowRoutes, LegacySources, RetiredJobs, RetiredSettings, RetiredProfiles, RetiredRoutes,
        IsolatedSources, IsolatedBindings;
      var cancelled := CancelSafeJobs(stamp);
      var standing := DisableStandingAuthorizations(stamp);
      var shadow := DisableShadowRoutes(stamp);
      var isolated := IsolateSources(ids, stamp);
      report := Report(cancelled, standing, shadow, isolated, 0);
    }

    method Rollback(saved: Database)
      requires saved == others.(jobs := saved.jobs, settings := saved.settings, profiles := saved.profiles,
        routes := saved.routes, sources := saved.sources, bindings := saved.bindings, sound := saved.sound)
      modifies this
      ensures Contents() == saved
    {
      jobs, settings, profiles := saved.jobs, saved.settings, saved.profiles;
      routes, sources, bindings, sound := saved.routes, saved.sources, saved.bindings, saved.sound;
    }

    /** BEGIN IMMEDIATE to COMMIT or ROLLBACK. `checks` is what the integrity and foreign-key checks
        say about the rewritten tables; a refusal or a failed check leaves every table as it was. */
    method Transaction(c: Confirmed, now: Time, checks: bool) returns (r: Result<Report, Error>)
      modifies this
      ensures var t := Transact(old(Contents()), c, now, checks);
        && (r.Ok? <==> t.Ok?)
        && (t.Ok? ==> Contents() == t.value.0 && r.value == t.value.1)
        && (t.Err? ==> Contents() == old(Contents()) && r.error == t.error)
    {
      var saved := Contents();
      var current := Summarize(saved, now);
      var refused := RequireApplySafe(current, c);
      if refused.Some? {
        return Err(refused.value);
      }
      hide RequireApplySafe, Retire, SafeJobs, ShadowRoutes, Standing, LegacySources;
      var report := RetireAll(current.sources, now);
      if !checks {
        Rollback(saved);
        return Err(CheckFailed);
      }
      sound := true;
      return Ok(report.(isolatedJobs := current.isolated));
    }
  }
}
