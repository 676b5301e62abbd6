/** The retirement row by row: what stops it, what it leaves, and what verification accepts. */
module RetirementRows {
  import opened Common
  import opened Retirement
  import opened RetirementFacts
  import opened RetirementProtocol

  // ---------------------------------------------------------------- rows that stop a retirement

  /** The word stands in the text at this place: an underscore for any character, letters in either case. */
  ghost predicate StandsAt(text: string, word: string, i: nat) {
    && i + |word| <= |text|
    && forall j | 0 <= j < |word| ::
         || word[j] == '_' || text[i + j] == word[j]
         || ('A' <= text[i + j] <= 'Z' && text[i + j] as int + 32 == word[j] as int)
  }

  ghost predicate Mentions(code: Option<string>, word: string) {
    code.Some? && exists i :: StandsAt(code.value, word, i)
  }

  ghost predicate StartUnknown(status: string, code: Option<string>) {
    status == "start_outcome_unknown" || Mentions(code, "unknown_start") || Mentions(code, "start_outcome_unknown")
  }

  ghost predicate OpenCost(final: int, reserved: Option<real>, actual: Option<real>) {
    final == 0 && ((reserved.Some? && reserved.value > 0.0) || actual.Some?)
  }

  ghost predicate RunOfAttempt(db: Database, r: Key) {
    r in db.runs && db.runs[r].logicalRunId.Some? && db.runs[r].logicalRunId.value in db.attempts
  }

  ghost predicate IsCostTable(table: string) {
    || table == "apify_actor_validations" || table == "apify_actor_canary_batches"
    || table == "apify_actor_canary_batch_items" || table == "apify_actor_freshness_checks"
    || table == "apify_actor_freshness_results"
  }

  ghost predicate IsRow(db: Database, table: string, k: Key) {
    table in db.facts && k in db.facts[table]
  }

  ghost predicate Pending(table: string, f: Fact) {
    || (table == "apify_actor_discovery_runs" && f.stage in {Some("queued"), Some("searching"), Some("metadata"),
          Some("ranking"), Some("static_validation"), Some("input_validation")})
    || (table == "apify_actor_validations" && f.status in {Some("queued"), Some("running"), Some("blocked_unknown_start")})
    || (table == "apify_actor_canary_batches" &&
          f.status in {Some("queued"), Some("preflighting"), Some("running"), Some("blocked_unknown_start")})
    || (table == "apify_actor_pool_stages" && f.status in {Some("queued"), Some("validating_route"),
          Some("validating_sources"), Some("apply_ready"), Some("blocked_unknown_start")})
    || (table == "apify_actor_freshness_checks" && f.status in {Some("queued"), Some("running"), Some("blocked_unknown_start")})
    || (table == "apify_actor_auto_pool_runs" && f.status == Some("running"))
  }

  /** A worker whose heartbeat cannot be read or is less than 35 seconds old. */
  ghost predicate SomeActive(db: Database, now: Time) {
    exists w | w in db.heartbeats :: db.heartbeats[w] == None || now - db.heartbeats[w].value < 35_000_000
  }

  ghost predicate SomeUnknown(db: Database) {
    || (exists a | a in db.attempts :: StartUnknown(db.attempts[a].status, db.attempts[a].lastErrorCode))
    || (exists r | RunOfAttempt(db, r) :: StartUnknown(db.runs[r].status, db.runs[r].lastErrorCode))
    || (!db.unjoinable && exists table, k | IsCostTable(table) && IsRow(db, table, k) ::
          db.facts[table][k].status == Some("blocked_unknown_start"))
  }

  ghost predicate SomeUnsettled(db: Database) {
    || (exists a | a in db.attempts :: OpenCost(db.attempts[a].costFinal, db.attempts[a].reserved, db.attempts[a].actual))
    || (exists r | RunOfAttempt(db, r) :: OpenCost(db.runs[r].chargeFinal, db.runs[r].chargeReserved, db.runs[r].chargeActual))
    || (!db.unjoinable && exists table, k | IsCostTable(table) && IsRow(db, table, k) ::
          db.facts[table][k].costFinal == Some(0))
  }

  ghost predicate SomePending(db: Database) {
    exists table, k | IsRow(db, table, k) :: Pending(table, db.facts[table][k])
  }

  // ---------------------------------------------------------------- rows that a retirement rewrites

  ghost predicate IsV1(job: Job) {
    || job.jobType == "apify_actor_discovery" || job.jobType == "apify_actor_validation"
    || job.jobType == "apify_actor_canary_batch" || job.jobType == "apify_actor_freshness_check"
  }

  ghost predicate Untried(job: Job) {
    IsV1(job) && job.status == "queued" && job.attempts == 0 && job.startedAt == None
  }

  /** Begun, or queued again: such a job is left alone and has to be confirmed by number. */
  ghost predicate Tried(job: Job) {
    IsV1(job) && (job.status == "running" || (job.status == "queued" && (job.attempts != 0 || job.startedAt != None)))
  }

  ghost predicate UsesV1(db: Database, s: Key)
    requires s in db.sources
  {
    var source := db.sources[s];
    && source.enabled == 1 && source.config.Object? && db.bindings.Some?
    && (s in db.legacyBound || (source.sourceType == "apify_social" && exists c | c in source.config.profileId :: !IsSpace(c)))
    && ((forall b | b in db.bindings.value :: db.bindings.value[b].sourceId != s)
        || (exists b | b in db.bindings.value :: db.bindings.value[b].sourceId == s && db.bindings.value[b].status != "ready"))
  }

  // ---------------------------------------------------------------- counting is looking for rows

  lemma LikeIsMention(code: Option<string>, word: string)
    requires word != [] && forall j | 0 <= j < |word| :: 'a' <= word[j] <= 'z' || word[j] == '_'
    ensures Like(code.GetOr(""), word) <==> Mentions(code, word)
  {
    var text := code.GetOr("");
    forall i: nat | i + |word| <= |text| ensures LikeAt(text, word, i) <==> StandsAt(text, word, i) {
      hide Like;
    }
    if Like(text, word) {
      var i :| 0 <= i <= |text| - |word| && LikeAt(text, word, i);
      assert StandsAt(text, word, i);
    }
    if Mentions(code, word) {
      var i :| StandsAt(text, word, i);
      assert LikeAt(text, word, i);
    }
  }

  lemma UnknownIsMentioned(status: string, code: Option<string>)
    ensures UnknownStart(status, code) <==> StartUnknown(status, code)
  {
    LikeIsMention(code, "unknown_start");
    LikeIsMention(code, "start_outcome_unknown");
    hide Like, Mentions;
  }

  lemma NonterminalIsPending(table: string, f: Fact)
    ensures table in STATE_TABLES && Nonterminal(table, f) <==> Pending(table, f)
  {
  }

  lemma Member<T>(s: set<T>) returns (x: T)
    requires s != {}
    ensures x in s
  {
    x :| x in s;
  }

  ghost predicate NonterminalIn(db: Database, table: string) {
    exists k | IsRow(db, table, k) :: Nonterminal(table, db.facts[table][k])
  }

  lemma NonterminalFound(db: Database, table: string)
    ensures |set k | k in Rows(db, table) && Nonterminal(table, Rows(db, table)[k])| > 0 <==> NonterminalIn(db, table)
  {
    var rows := Rows(db, table);
    var found := set k | k in rows && Nonterminal(table, rows[k]);
    assert forall k | IsRow(db, table, k) && Nonterminal(table, db.facts[table][k]) :: k in found;
    if found != {} {
      var k := Member(found);
      assert IsRow(db, table, k) && |found| > 0;
    }
  }

  lemma {:induction false} NonterminalRows(db: Database, tables: seq<string>)
    ensures NonterminalCount(db, tables) > 0 <==> exists table | table in tables :: NonterminalIn(db, table)
  {
    if tables != [] {
      NonterminalRows(db, tables[1..]);
      NonterminalFound(db, tables[0]);
      hide NonterminalIn, Rows;
      assert forall table :: table in tables <==> table == tables[0] || table in tables[1..];
    }
  }

  ghost predicate BlockedIn(db: Database, table: string) {
    exists k | IsRow(db, table, k) :: db.facts[table][k].status == Some("blocked_unknown_start")
  }

  lemma BlockedFound(db: Database, table: string)
    ensures |set k | k in Rows(db, table) && Rows(db, table)[k].status == Some("blocked_unknown_start")| > 0 <==> BlockedIn(db, table)
  {
    var rows := Rows(db, table);
    var found := set k | k in rows && rows[k].status == Some("blocked_unknown_start");
    assert forall k | IsRow(db, table, k) && db.facts[table][k].status == Some("blocked_unknown_start") :: k in found;
    if found != {} {
      var k := Member(found);
      assert IsRow(db, table, k) && |found| > 0;
    }
  }

  lemma {:induction false} BlockedRows(db: Database, tables: seq<string>)
    ensures BlockedCount(db, tables) > 0 <==> exists table | table in tables :: BlockedIn(db, table)
  {
    if tables != [] {
      BlockedRows(db, tables[1..]);
      BlockedFound(db, tables[0]);
      hide BlockedIn, Rows;
      assert forall table :: table in tables <==> table == tables[0] || table in tables[1..];
    }
  }

  ghost predicate OpenIn(db: Database, table: string) {
    exists k | IsRow(db, table, k) :: db.facts[table][k].costFinal == Some(0)
  }

  lemma OpenFound(db: Database, table: string)
    ensures |set k | k in Rows(db, table) && Rows(db, table)[k].costFinal == Some(0)| > 0 <==> OpenIn(db, table)
  {
    var rows := Rows(db, table);
    var found := set k | k in rows && rows[k].costFinal == Some(0);
    assert forall k | IsRow(db, table, k) && db.facts[table][k].costFinal == Some(0) :: k in found;
    if found != {} {
      var k := Member(found);
      assert IsRow(db, table, k) && |found| > 0;
    }
  }

  lemma {:induction false} OpenCostRows(db: Database, tables: seq<string>)
    ensures OpenCostCount(db, tables) > 0 <==> exists table | table in tables :: OpenIn(db, table)
  {
    if tables != [] {
      OpenCostRows(db, tables[1..]);
      OpenFound(db, tables[0]);
      hide OpenIn, Rows;
      assert forall table :: table in tables <==> table == tables[0] || table in tables[1..];
    }
  }

  lemma CostTablesAre(table: string)
    ensures table in COST_TABLES <==> IsCostTable(table)
  {
  }

  lemma BlockedFacts(db: Database)
    ensures BlockedCount(db, CostTables(db)) > 0 <==>
      !db.unjoinable && exists table, k | IsCostTable(table) && IsRow(db, table, k) ::
        db.facts[table][k].status == Some("blocked_unknown_start")
  {
    BlockedRows(db, CostTables(db));
    forall table {
      CostTablesAre(table);
    }
    hide BlockedCount, IsCostTable, IsRow, COST_TABLES;
  }

  lemma OpenFacts(db: Database)
    ensures OpenCostCount(db, CostTables(db)) > 0 <==>
      !db.unjoinable && exists table, k | IsCostTable(table) && IsRow(db, table, k) :: db.facts[table][k].costFinal == Some(0)
  {
    OpenCostRows(db, CostTables(db));
    forall table {
      CostTablesAre(table);
    }
    hide OpenCostCount, IsCostTable, IsRow, COST_TABLES;
  }

  lemma UnknownRows(db: Database)
    ensures UnknownCount(db) > 0 <==> SomeUnknown(db)
  {
    forall status, code ensures UnknownStart(status, code) <==> StartUnknown(status, code) {
      UnknownIsMentioned(status, code);
    }
    BlockedFacts(db);
    hide UnknownStart, StartUnknown, BlockedCount, IsCostTable, IsRow, CostTables;
    var attempts := set a | a in db.attempts && UnknownStart(db.attempts[a].status, db.attempts[a].lastErrorCode);
    var runs := set r | r in db.runs && V1Run(db, db.runs[r]) && UnknownStart(db.runs[r].status, db.runs[r].lastErrorCode);
    assert forall a | a in db.attempts && StartUnknown(db.attempts[a].status, db.attempts[a].lastErrorCode) :: a in attempts;
    assert forall r | RunOfAttempt(db, r) && StartUnknown(db.runs[r].status, db.runs[r].lastErrorCode) :: r in runs;
    if attempts != {} {
      var a := Member(attempts);
      assert |attempts| > 0;
    }
    if runs != {} {
      var r := Member(runs);
      assert |runs| > 0 && RunOfAttempt(db, r);
    }
    assert |attempts| > 0 <==> exists a | a in db.attempts :: StartUnknown(db.attempts[a].status, db.attempts[a].lastErrorCode);
    assert |runs| > 0 <==> exists r | RunOfAttempt(db, r) :: StartUnknown(db.runs[r].status, db.runs[r].lastErrorCode);
  }

  lemma UnsettledRows(db: Database)
    ensures UnsettledCount(db) > 0 <==> SomeUnsettled(db)
  {
    OpenFacts(db);
    hide OpenCostCount, IsCostTable, IsRow, CostTables;
    var attempts := set a | a in db.attempts
                            && Unsettled(db.attempts[a].costFinal, db.attempts[a].reserved, db.attempts[a].actual);
    var runs := set r | r in db.runs && V1Run(db, db.runs[r])
                        && Unsettled(db.runs[r].chargeFinal, db.runs[r].chargeReserved, db.runs[r].chargeActual);
    assert forall a | a in db.attempts && OpenCost(db.attempts[a].costFinal, db.attempts[a].reserved, db.attempts[a].actual) :: a in attempts;
    assert forall r | RunOfAttempt(db, r) && OpenCost(db.runs[r].chargeFinal, db.runs[r].chargeReserved, db.runs[r].chargeActual) :: r in runs;
    if attempts != {} {
      var a := Member(attempts);
      assert |attempts| > 0;
    }
    if runs != {} {
      var r := Member(runs);
      assert |runs| > 0 && RunOfAttempt(db, r);
    }
    assert |attempts| > 0 <==>
      exists a | a in db.attempts :: OpenCost(db.attempts[a].costFinal, db.attempts[a].reserved, db.attempts[a].actual);
    assert |runs| > 0 <==>
      exists r | RunOfAttempt(db, r) :: OpenCost(db.runs[r].chargeFinal, db.runs[r].chargeReserved, db.runs[r].chargeActual);
  }

  lemma PendingRows(db: Database)
    ensures NonterminalCount(db, STATE_TABLES) > 0 <==> SomePending(db)
  {
    NonterminalRows(db, STATE_TABLES);
    forall table, f ensures table in STATE_TABLES && Nonterminal(table, f) <==> Pending(table, f) {
      NonterminalIsPending(table, f);
    }
    hide Nonterminal, Pending, NonterminalCount, IsRow, STATE_TABLES;
  }

  // ---------------------------------------------------------------- the rewritten rows

  ghost predicate JobColumns(was: Job, job: Job, now: Time) {
    if Untried(was) then
      job == was.(
        status := "cancelled", workerId := None, claimToken := None, lockedUntil := None,
        result := Some("{\"invalidation_reason\": \"actorops_v1_retired\"}"), errorCode := Some("actorops_v1_retired"),
        errorMessage := None, cancelledAt := Some(if was.cancelledAt.Some? then was.cancelledAt.value else now),
        finishedAt := Some(if was.finishedAt.Some? then was.finishedAt.value else now), updatedAt := now)
    else job == was
  }

  ghost predicate StandingColumns(db: Database, after: Database, now: Time) {
    && after.settings.Keys == db.settings.Keys && after.profiles.Keys == db.profiles.Keys
    && after.routes.Keys == db.routes.Keys
    && (forall s | s in db.settings ::
          after.settings[s] == if db.settings[s].enabled == 1 then Settings(0, now) else db.settings[s])
    && (forall p | p in db.profiles ::
          after.profiles[p] == if db.profiles[p].freshnessEnabled == 1 then Profile(0, None, None, "disabled", None, now)
                               else db.profiles[p])
    && (forall r | r in db.routes ::
          after.routes[r] == if db.routes[r].runtimeMode == "shadow" then Route("disabled", db.routes[r].generation + 1, now)
                             else db.routes[r])
  }

  ghost predicate SourceColumns(db: Database, after: Database, now: Time) {
    && after.sources.Keys == db.sources.Keys
    && (forall s | s in db.sources ::
          after.sources[s] == if UsesV1(db, s) then db.sources[s].(enabled := 0, updatedAt := now) else db.sources[s])
    && after.bindings.Some? == db.bindings.Some?
    && (db.bindings.Some? ==>
          && after.bindings.value.Keys == db.bindings.value.Keys
          && forall b | b in db.bindings.value :: BindingColumns(db, db.bindings.value[b], after.bindings.value[b], now))
  }

  ghost predicate BindingColumns(db: Database, was: Binding, binding: Binding, now: Time) {
    if was.sourceId in db.sources && UsesV1(db, was.sourceId) && was.status != "disabled" then
      binding == Binding(was.sourceId, "disabled", was.version + 1, None, now)
    else binding == was
  }

  /** What a retirement makes of every table. */
  ghost predicate RetiredColumns(db: Database, after: Database, now: Time) {
    && after.jobs.Keys == db.jobs.Keys && (forall j | j in db.jobs :: JobColumns(db.jobs[j], after.jobs[j], now))
    && StandingColumns(db, after, now) && SourceColumns(db, after, now)
    && after.attempts == db.attempts && after.runs == db.runs && after.facts == db.facts
    && after.heartbeats == db.heartbeats && after.legacyBound == db.legacyBound
    && after.unjoinable == db.unjoinable && after.shape == db.shape && after.rest == db.rest
  }

  lemma LegacyRows(db: Database)
    ensures LegacySources(db) == set s | s in db.sources && UsesV1(db, s)
  {
  }

  lemma RetireJobRows(db: Database, now: Time)
    ensures forall j | j in db.jobs :: j in Retire(db, now).jobs && JobColumns(db.jobs[j], Retire(db, now).jobs[j], now)
    ensures Retire(db, now).jobs.Keys == db.jobs.Keys
  {
    hide LegacySources, RetiredSettings, RetiredProfiles, RetiredRoutes, IsolatedSources, IsolatedBindings;
  }

  lemma RetireStandingRows(db: Database, now: Time)
    ensures StandingColumns(db, Retire(db, now), now)
  {
    hide LegacySources, RetiredJobs, IsolatedSources, IsolatedBindings;
  }

  lemma LegacyIds(db: Database)
    ensures forall s :: s in LegacySources(db) <==> s in db.sources && UsesV1(db, s)
    ensures forall s | s in LegacySources(db) :: db.sources[s].enabled == 1
  {
    LegacyRows(db);
    UsersAreEnabled(db);
    hide LegacySources, UsesV1;
  }

  lemma IsolatedBindingRows(db: Database, bindings: map<Key, Binding>, now: Time)
    ensures var after := IsolatedBindings(bindings, LegacySources(db), now);
      after.Keys == bindings.Keys && forall b | b in bindings :: BindingColumns(db, bindings[b], after[b], now)
  {
    LegacyIds(db);
    hide LegacySources, UsesV1;
  }

  lemma RetireSourceRows(db: Database, now: Time)
    ensures SourceColumns(db, Retire(db, now), now)
  {
    LegacyIds(db);
    if db.bindings.Some? {
      IsolatedBindingRows(db, db.bindings.value, now);
    }
    hide LegacySources, RetiredJobs, RetiredSettings, RetiredProfiles, RetiredRoutes, UsesV1, IsolatedBindings, BindingColumns;
  }

  lemma UsersAreEnabled(db: Database)
    ensures forall s | s in db.sources && UsesV1(db, s) :: db.sources[s].enabled == 1
  {
  }

  lemma RetireRows(db: Database, now: Time, sound: bool)
    ensures RetiredColumns(db, Retire(db, now).(sound := sound), now)
  {
    RetireJobRows(db, now);
    RetireStandingRows(db, now);
    RetireSourceRows(db, now);
    hide LegacySources, RetiredJobs, RetiredSettings, RetiredProfiles, RetiredRoutes, IsolatedSources, IsolatedBindings,
      JobColumns, UsesV1, BindingColumns;
  }

  // ---------------------------------------------------------------- the transaction

  ghost function TriedJobs(db: Database): set<Key> {
    set j | j in db.jobs && Tried(db.jobs[j])
  }

  ghost function V1Sources(db: Database): set<Key> {
    set s | s in db.sources && UsesV1(db, s)
  }

  ghost predicate Blocked(db: Database, now: Time) {
    SomeActive(db, now) || SomeUnknown(db) || SomeUnsettled(db) || SomePending(db)
  }

  /** The operator gave this number; nothing needs to be given for zero. */
  ghost predicate Confirms(given: Option<int>, n: nat) {
    given == Some(n) || (given == None && n == 0)
  }

  lemma ActiveRows(db: Database, now: Time)
    ensures |ActiveWorkers(db, now)| > 0 <==> SomeActive(db, now)
  {
    assert forall w | w in db.heartbeats && Active(db.heartbeats[w], now) :: w in ActiveWorkers(db, now);
    if ActiveWorkers(db, now) != {} {
      var w := Member(ActiveWorkers(db, now));
    }
  }

  lemma JobRow(job: Job)
    ensures (SafeJob(job) <==> Untried(job)) && (IsolatedJob(job) <==> Tried(job))
  {
  }

  lemma JobRows(db: Database)
    ensures IsolatedJobs(db.jobs) == TriedJobs(db)
    ensures SafeJobs(db.jobs) == set j | j in db.jobs && Untried(db.jobs[j])
  {
    forall j | j in db.jobs {
      JobRow(db.jobs[j]);
    }
    hide SafeJob, IsolatedJob, Untried, Tried;
  }

  lemma SummaryRows(db: Database, now: Time)
    ensures var s := Summarize(db, now);
      && (s.active > 0 <==> SomeActive(db, now)) && (s.unknown > 0 <==> SomeUnknown(db))
      && (s.unsettled > 0 <==> SomeUnsettled(db)) && (s.nonterminal > 0 <==> SomePending(db))
      && s.isolated == |TriedJobs(db)| && s.sources == V1Sources(db)
      && s.safe == |set j | j in db.jobs && Untried(db.jobs[j])|
  {
    ActiveRows(db, now);
    UnknownRows(db);
    UnsettledRows(db);
    PendingRows(db);
    JobRows(db);
    LegacyRows(db);
    hide UnknownCount, UnsettledCount, NonterminalCount, SafeJobs, IsolatedJobs, LegacySources, ActiveWorkers, TriedJobs,
      SomeActive, SomeUnknown, SomeUnsettled, SomePending, UsesV1, Untried, ShadowRoutes, Standing;
  }

  /** The transaction names the first obstacle among the rows, and commits if and only if there is none. */
  lemma TransactionIff(db: Database, c: Confirmed, now: Time, checks: bool)
    ensures var r := Transact(db, c, now, checks);
      && (r == Err(WorkerActive) <==> SomeActive(db, now))
      && (r == Err(UnknownStartRemains) <==> !SomeActive(db, now) && SomeUnknown(db))
      && (r == Err(CostUnsettled) <==> !SomeActive(db, now) && !SomeUnknown(db) && SomeUnsettled(db))
      && (r == Err(FactsNonterminal) <==>
            !SomeActive(db, now) && !SomeUnknown(db) && !SomeUnsettled(db) && SomePending(db))
      && (r.Ok? <==>
            && !Blocked(db, now) && checks
            && Confirms(c.jobs, |TriedJobs(db)|) && Confirms(c.sources, |V1Sources(db)|))
      && (r == Err(CheckFailed) <==>
            && !Blocked(db, now) && !checks
            && Confirms(c.jobs, |TriedJobs(db)|) && Confirms(c.sources, |V1Sources(db)|))
      && (r.Ok? ==> RetiredColumns(db, r.value.0, now) && r.value.0.sound)
  {
    SummaryRows(db, now);
    RetireRows(db, now, true);
    hide Summarize, Retire, RetiredColumns, SomeActive, SomeUnknown, SomeUnsettled, SomePending, TriedJobs, V1Sources;
  }

  // ---------------------------------------------------------------- every commit

  /** No v1 work is standing: no job to be started, nothing authorized, no shadow route and no v1 source. */
  ghost predicate NothingStands(db: Database) {
    && (forall j | j in db.jobs :: !Untried(db.jobs[j]))
    && (forall s | s in db.settings :: db.settings[s].enabled != 1)
    && (forall p | p in db.profiles :: db.profiles[p].freshnessEnabled != 1)
    && (forall r | r in db.routes :: db.routes[r].runtimeMode != "shadow")
    && (forall s | s in db.sources :: !UsesV1(db, s))
  }

  ghost predicate CommitRows(c: Commit) {
    && !Blocked(c.before, c.now) && !Blocked(c.after, c.now)
    && RetiredColumns(c.before, c.after, c.now) && NothingStands(c.after)
    && TriedJobs(c.after) == TriedJobs(c.before)
    && Confirms(c.confirmed.jobs, |TriedJobs(c.before)|) && Confirms(c.confirmed.sources, |V1Sources(c.before)|)
  }

  lemma BlockedByFacts(db: Database, after: Database, now: Time)
    requires after.attempts == db.attempts && after.runs == db.runs && after.facts == db.facts
    requires after.heartbeats == db.heartbeats && after.unjoinable == db.unjoinable
    ensures Blocked(after, now) == Blocked(db, now)
  {
    assert forall r :: RunOfAttempt(after, r) == RunOfAttempt(db, r);
    assert forall table, k :: IsRow(after, table, k) == IsRow(db, table, k);
    hide StartUnknown, OpenCost, Pending, IsCostTable, RunOfAttempt, IsRow;
  }

  lemma NothingIsLeft(db: Database, now: Time)
    ensures NothingStands(Retire(db, now).(sound := true))
    ensures TriedJobs(Retire(db, now).(sound := true)) == TriedJobs(db)
  {
    var retired := Retire(db, now);
    RetiresJobs(db, now);
    NothingIsLeftToStart(db.jobs, now);
    JobRows(retired);
    JobRows(db);
    JobsAfter(db.jobs, now);
    NoLegacySourceIsLeft(db, now);
    LegacyRows(retired);
    RetireStandingRows(db, now);
    hide Retire, RetiredJobs, SafeJobs, IsolatedJobs, LegacySources;
    forall s | s in retired.sources ensures !UsesV1(retired, s) {
      assert s !in LegacySources(retired);
    }
    assert forall s | s in retired.sources :: UsesV1(retired.(sound := true), s) == UsesV1(retired, s);
    assert |"disabled"| != |"shadow"|;
  }

  lemma NothingIsLeftToStart(jobs: map<Key, Job>, now: Time)
    ensures forall j | j in RetiredJobs(jobs, now) :: !Untried(RetiredJobs(jobs, now)[j])
  {
    JobsAfter(jobs, now);
    var after := RetiredJobs(jobs, now);
    forall j | j in after ensures !Untried(after[j]) {
      assert j !in SafeJobs(after);
      JobRow(after[j]);
      hide RetiredJobs, Untried, SafeJob, IsolatedJob;
    }
  }

  lemma CleanCommitRows(c: Commit)
    requires CommitIsClean(c)
    ensures CommitRows(c)
  {
    RetireRows(c.before, c.now, true);
    NothingIsLeft(c.before, c.now);
    SummaryRows(c.after, c.now);
    SummaryRows(c.before, c.now);
    JobRows(c.before);
    LegacyRows(c.before);
    assert LegacySources(c.before) == V1Sources(c.before);
    hide Retire, Summarize, SomeActive, SomeUnknown, SomeUnsettled, SomePending, TriedJobs, V1Sources, IsolatedJobs,
      LegacySources, SafeJobs, JobColumns, StandingColumns, SourceColumns, NothingStands, UsesV1;
    BlockedByFacts(c.before, c.after, c.now);
  }

  /** Whatever others write in between and wherever a command crashes, no committed apply starts from or leaves
      a blocking row, it rewrites exactly the standing rows, and nothing stands afterwards. */
  lemma EveryCommitRows(w: World, steps: seq<Step>)
    requires forall c | c in w.log :: CommitIsClean(c)
    ensures forall c | c in Exec(w, steps).log :: CommitRows(c)
  {
    EveryCommitIsClean(w, steps);
    hide CommitIsClean, CommitRows, Exec;
    forall c | c in Exec(w, steps).log ensures CommitRows(c) {
      CleanCommitRows(c);
    }
  }

  // ---------------------------------------------------------------- verification

  /** Verification succeeds exactly on the content of the receipt, in shape and sound, without a blocking row,
      with as many tried jobs as were confirmed, and without v1 source, shadow route or authorization. */
  lemma VerifyIff(db: Database, receipt: Option<Receipt>, now: Time)
    ensures Verify(db, receipt, now).Ok? <==>
      && receipt.Some?
      && (if receipt.value.postApplySha.Some? then receipt.value.postApplySha.value.content == db
          else receipt.value.databaseSha.content == db)
      && db.shape == receipt.value.shape && db.sound && !Blocked(db, now)
      && |TriedJobs(db)| == receipt.value.isolatedJobs
      && (forall s | s in db.settings :: db.settings[s].enabled != 1)
      && (forall p | p in db.profiles :: db.profiles[p].freshnessEnabled != 1)
      && (forall r | r in db.routes :: db.routes[r].runtimeMode != "shadow")
      && (forall s | s in db.sources :: !UsesV1(db, s))
  {
    SummaryRows(db, now);
    StandingRows(db);
    assert V1Sources(db) == {} <==> forall s | s in db.sources :: !UsesV1(db, s) by {
      assert forall s | s in db.sources && UsesV1(db, s) :: s in V1Sources(db);
    }
    hide SomeActive, SomeUnknown, SomeUnsettled, SomePending, TriedJobs, V1Sources, UsesV1, Standing, ShadowRoutes,
      UnknownCount, UnsettledCount, NonterminalCount, LegacySources, SafeJobs, IsolatedJobs, ActiveWorkers;
  }

  lemma StandingRows(db: Database)
    ensures Standing(db) == 0 <==>
      && (forall s | s in db.settings :: db.settings[s].enabled != 1)
      && (forall p | p in db.profiles :: db.profiles[p].freshnessEnabled != 1)
    ensures |ShadowRoutes(db.routes)| == 0 <==> forall r | r in db.routes :: db.routes[r].runtimeMode != "shadow"
  {
    assert forall s | s in db.settings && db.settings[s].enabled == 1 :: s in EnabledSettings(db.settings);
    assert forall p | p in db.profiles && db.profiles[p].freshnessEnabled == 1 :: p in FreshProfiles(db.profiles);
    assert forall r | r in db.routes && db.routes[r].runtimeMode == "shadow" :: r in ShadowRoutes(db.routes);
    if EnabledSettings(db.settings) != {} {
      var s := Member(EnabledSettings(db.settings));
    }
    if FreshProfiles(db.profiles) != {} {
      var p := Member(FreshProfiles(db.profiles));
    }
    if ShadowRoutes(db.routes) != {} {
      var r := Member(ShadowRoutes(db.routes));
    }
  }

  // ---------------------------------------------------------------- where the count ends early

  /** Runs that cannot be joined, and one validation whose cost is not final. */
  ghost function OpenValidation(): Database {
    Database(map[], map[], map[], map[], map[], None, {}, map[], map[],
             map["apify_actor_validations" := map[1 := Fact(None, Some("succeeded"), Some(0))]], map[], true, "", true, 0)
  }

  /** Such a database retires although a cost is open, since the count ends before the table that has it. */
  lemma UnjoinableHidesCosts()
    ensures Transact(OpenValidation(), Confirmed(None, None), 0, true).Ok?
    ensures Transact(OpenValidation().(unjoinable := false), Confirmed(None, None), 0, true) == Err(CostUnsettled)
  {
    var db := OpenValidation();
    NothingElseBlocks(db.unjoinable);
    NothingElseBlocks(false);
    TransactionIff(db, Confirmed(None, None), 0, true);
    TransactionIff(db.(unjoinable := false), Confirmed(None, None), 0, true);
    hide Transact, OpenValidation, TriedJobs, V1Sources, SomeActive, SomeUnknown, SomeUnsettled, SomePending;
  }

  lemma NothingElseBlocks(unjoinable: bool)
    ensures var db := OpenValidation().(unjoinable := unjoinable);
      && !SomeActive(db, 0) && !SomeUnknown(db) && !SomePending(db) && |TriedJobs(db)| == 0 && |V1Sources(db)| == 0
      && (SomeUnsettled(db) <==> !unjoinable)
    ensures OpenValidation().unjoinable && OpenValidation() == OpenValidation().(unjoinable := true)
  {
    var db := OpenValidation().(unjoinable := unjoinable);
    assert IsCostTable("apify_actor_validations") && IsRow(db, "apify_actor_validations", 1);
    assert forall table, k | IsRow(db, table, k) :: table == "apify_actor_validations" && db.facts[table][k].status == Some("succeeded");
    assert |"succeeded"| != |"blocked_unknown_start"| && |"succeeded"| != |"queued"| && |"succeeded"| != |"running"|;
    hide IsRow, IsCostTable;
    assert TriedJobs(db) == {} && V1Sources(db) == {};
  }
}
