/** What one retirement leaves behind, and what it changes. */
module RetirementFacts {
  import opened Common
  import opened Retirement

  // ---------------------------------------------------------------- the counts a retirement leaves

  /** Rows no update of the retirement writes. */
  ghost predicate SameFacts(a: Database, b: Database) {
    && a.attempts == b.attempts && a.runs == b.runs && a.facts == b.facts
    && a.heartbeats == b.heartbeats && a.legacyBound == b.legacyBound
    && a.unjoinable == b.unjoinable && a.shape == b.shape && a.rest == b.rest
  }

  lemma {:induction false} SameFactsCountAlike(a: Database, b: Database, tables: seq<string>)
    requires SameFacts(a, b)
    ensures NonterminalCount(a, tables) == NonterminalCount(b, tables)
    ensures BlockedCount(a, tables) == BlockedCount(b, tables)
    ensures OpenCostCount(a, tables) == OpenCostCount(b, tables)
  {
    if tables != [] {
      SameFactsCountAlike(a, b, tables[1..]);
      assert Rows(a, tables[0]) == Rows(b, tables[0]);
    }
  }

  lemma SameUnknowns(a: Database, b: Database)
    requires SameFacts(a, b)
    ensures UnknownCount(a) == UnknownCount(b)
  {
    hide BlockedCount, UnknownStart;
    SameFactsCountAlike(a, b, CostTables(a));
    assert (set r | r in a.runs && V1Run(a, a.runs[r]) && UnknownStart(a.runs[r].status, a.runs[r].lastErrorCode))
        == (set r | r in b.runs && V1Run(b, b.runs[r]) && UnknownStart(b.runs[r].status, b.runs[r].lastErrorCode));
  }

  lemma SameUnsettled(a: Database, b: Database)
    requires SameFacts(a, b)
    ensures UnsettledCount(a) == UnsettledCount(b)
  {
    hide OpenCostCount, Unsettled;
    SameFactsCountAlike(a, b, CostTables(a));
    assert (set r | r in a.runs && V1Run(a, a.runs[r])
                    && Unsettled(a.runs[r].chargeFinal, a.runs[r].chargeReserved, a.runs[r].chargeActual))
        == (set r | r in b.runs && V1Run(b, b.runs[r])
                    && Unsettled(b.runs[r].chargeFinal, b.runs[r].chargeReserved, b.runs[r].chargeActual));
  }

  lemma SameFactsSummary(a: Database, b: Database, now: Time)
    requires SameFacts(a, b)
    ensures var s, t := Summarize(a, now), Summarize(b, now);
      && s.unknown == t.unknown && s.unsettled == t.unsettled && s.nonterminal == t.nonterminal
      && s.active == t.active
  {
    hide UnknownCount, UnsettledCount, NonterminalCount, LegacySources;
    SameUnknowns(a, b);
    SameUnsettled(a, b);
    SameFactsCountAlike(a, b, STATE_TABLES);
  }

  lemma NoLegacySourceIsLeft(db: Database, stamp: Time)
    ensures LegacySources(Retire(db, stamp)) == {}
  {
    if db.bindings.Some? {
      var after := Retire(db, stamp);
      var ids := LegacySources(db);
      forall s | s in after.sources ensures !IsLegacy(after, s) {
        assert s in ids || !IsLegacy(db, s);
        if s !in ids {
          assert after.sources[s] == db.sources[s];
          SameBindings(db, stamp, s);
        }
      }
    }
  }

  lemma SameBindings(db: Database, stamp: Time, s: Key)
    requires db.bindings.Some? && s !in LegacySources(db)
    ensures Unready(Retire(db, stamp).bindings.value, s) == Unready(db.bindings.value, s)
  {
    hide LegacySources;
    var was, now := db.bindings.value, Retire(db, stamp).bindings.value;
    assert forall b :: b in was ==> now[b].sourceId == was[b].sourceId;
    assert forall b :: b in was && was[b].sourceId == s ==> now[b] == was[b];
  }

  lemma CancelledIsOver(job: Job, stamp: Time)
    ensures !SafeJob(CancelJob(job, stamp)) && !IsolatedJob(CancelJob(job, stamp))
  {
    assert |"cancelled"| != |"queued"| && |"cancelled"| != |"running"|;
  }

  lemma JobsAfter(jobs: map<Key, Job>, stamp: Time)
    ensures SafeJobs(RetiredJobs(jobs, stamp)) == {}
    ensures IsolatedJobs(RetiredJobs(jobs, stamp)) == IsolatedJobs(jobs)
  {
    var after := RetiredJobs(jobs, stamp);
    forall j | j in jobs
      ensures !SafeJob(after[j]) && (IsolatedJob(after[j]) <==> IsolatedJob(jobs[j]))
    {
      CancelledIsOver(jobs[j], stamp);
    }
  }

  lemma StandingAfter(db: Database, stamp: Time)
    ensures Standing(Retire(db, stamp)) == 0
    ensures ShadowRoutes(Retire(db, stamp).routes) == {}
  {
    hide LegacySources, RetiredJobs, IsolatedSources, IsolatedBindings;
    var after := Retire(db, stamp);
    assert EnabledSettings(after.settings) == {} && FreshProfiles(after.profiles) == {};
    assert |"disabled"| != |"shadow"|;
  }

  /** Standing work of every kind is gone, isolated jobs are still the same, and the counts of facts
      and workers have not moved. */
  lemma RetirementLeaves(db: Database, stamp: Time, now: Time)
    ensures var before, after := Summarize(db, now), Summarize(Retire(db, stamp), now);
      && after.safe == 0 && after.standing == 0 && after.shadow == 0 && after.sources == {}
      && after.isolated == before.isolated
      && after.unknown == before.unknown && after.unsettled == before.unsettled
      && after.nonterminal == before.nonterminal && after.active == before.active
  {
    var after := Retire(db, stamp);
    SameFactsSummary(db, after, now);
    NoLegacySourceIsLeft(db, stamp);
    JobsAfter(db.jobs, stamp);
    StandingAfter(db, stamp);
    hide LegacySources, UnknownCount, UnsettledCount, NonterminalCount, SafeJobs, IsolatedJobs, ShadowRoutes, Standing,
      RetiredJobs, RetiredRoutes, IsolatedSources, IsolatedBindings, ActiveWorkers;
  }

  /** A worker that was stale stays stale. */
  lemma WorkersStayStale(db: Database, now: Time, later: Time)
    requires now <= later
    requires Summarize(db, now).active == 0
    ensures Summarize(db, later).active == 0
  {
    hide UnknownCount, UnsettledCount, NonterminalCount, LegacySources;
    assert ActiveWorkers(db, now) == {};
    assert ActiveWorkers(db, later) == {} by {
      forall w | w in db.heartbeats ensures !Active(db.heartbeats[w], later) {
        assert w !in ActiveWorkers(db, now);
      }
    }
  }

  // ---------------------------------------------------------------- what a retirement changes

  /** Keys whose row differs between two versions of a table. */
  ghost function Changed<V>(was: map<Key, V>, now: map<Key, V>): set<Key>
    requires was.Keys == now.Keys
  {
    set k | k in was && was[k] != now[k]
  }

  /** Exactly the standing work is touched: the cancelled jobs are the queued v1 jobs that were never
      attempted nor started, the generation of exactly the shadow routes and the version of exactly
      the not yet disabled bindings of legacy sources rise by one, and no fact row changes. */
  lemma RetirementIsConservative(db: Database, stamp: Time)
    ensures var after := Retire(db, stamp);
      && after.jobs.Keys == db.jobs.Keys && after.settings.Keys == db.settings.Keys
      && after.profiles.Keys == db.profiles.Keys && after.routes.Keys == db.routes.Keys
      && after.sources.Keys == db.sources.Keys
      && Changed(db.jobs, after.jobs) == SafeJobs(db.jobs)
      && Changed(db.routes, after.routes) == ShadowRoutes(db.routes)
      && Changed(db.sources, after.sources) == LegacySources(db)
      && (forall r :: r in db.routes ==>
            after.routes[r].generation == db.routes[r].generation + if r in ShadowRoutes(db.routes) then 1 else 0)
      && (forall j :: j in SafeJobs(db.jobs) ==> after.jobs[j].status == "cancelled")
      && SameFacts(db, after) && after.sound == db.sound
  {
    var after := Retire(db, stamp);
    JobsChanged(db.jobs, stamp);
    var ids := LegacySources(db);
    assert forall s :: s in ids ==> s in db.sources && db.sources[s].enabled == 1;
    hide LegacySources, RetiredJobs, SafeJobs, IsolatedBindings;
    assert Changed(db.sources, after.sources) == ids;
    assert Changed(db.routes, after.routes) == ShadowRoutes(db.routes);
  }

  lemma JobsChanged(jobs: map<Key, Job>, stamp: Time)
    ensures RetiredJobs(jobs, stamp).Keys == jobs.Keys
    ensures Changed(jobs, RetiredJobs(jobs, stamp)) == SafeJobs(jobs)
    ensures forall j :: j in SafeJobs(jobs) ==> RetiredJobs(jobs, stamp)[j].status == "cancelled"
  {
    forall j | j in jobs && SafeJob(jobs[j]) ensures CancelJob(jobs[j], stamp) != jobs[j] {
      CancelledIsOver(jobs[j], stamp);
    }
  }

  ghost predicate BindingVersionsRise(db: Database, after: Database) {
    && db.bindings.Some? == after.bindings.Some?
    && (db.bindings.Some? ==>
      && after.bindings.value.Keys == db.bindings.value.Keys
      && forall b :: b in db.bindings.value ==>
           var was, row := db.bindings.value[b], after.bindings.value[b];
           var isolated := was.sourceId in LegacySources(db) && was.status != "disabled";
           && row.sourceId == was.sourceId
           && row.version == was.version + (if isolated then 1 else 0)
           && (isolated ==> row.status == "disabled" && row.preferredCandidate.None?)
           && (!isolated ==> row == was))
  }

  lemma BindingsAreConservative(db: Database, stamp: Time)
    ensures BindingVersionsRise(db, Retire(db, stamp))
  {
    hide LegacySources;
  }

  /** The numbers the script reports are the numbers of rows it changed. */
  lemma ReportCountsChanges(db: Database, c: Confirmed, now: Time)
    requires Transact(db, c, now, true).Ok?
    ensures var (after, report) := Transact(db, c, now, true).value;
      && after.jobs.Keys == db.jobs.Keys && after.settings.Keys == db.settings.Keys
      && after.profiles.Keys == db.profiles.Keys && after.routes.Keys == db.routes.Keys
      && after.sources.Keys == db.sources.Keys
      && report.jobsCancelled == |Changed(db.jobs, after.jobs)|
      && report.standingDisabled
           == |Changed(db.settings, after.settings)| + |Changed(db.profiles, after.profiles)|
      && report.shadowDisabled == |Changed(db.routes, after.routes)|
      && report.sourcesIsolated == |Changed(db.sources, after.sources)|
      && report.isolatedJobs == |IsolatedJobs(after.jobs)|
  {
    RetirementIsConservative(db, now);
    RetirementLeaves(db, now, now);
    var after := Retire(db, now);
    hide LegacySources, UnknownCount, UnsettledCount, NonterminalCount, RetiredJobs, RetiredRoutes,
      IsolatedSources, IsolatedBindings, SafeJobs, ShadowRoutes, IsolatedJobs;
    assert Changed(db.settings, after.settings) == EnabledSettings(db.settings);
    assert Changed(db.profiles, after.profiles) == FreshProfiles(db.profiles);
  }

  /** Retiring a second time changes nothing, whatever the second stamp. */
  lemma RetireTwice(db: Database, stamp: Time, again: Time)
    ensures Retire(Retire(db, stamp), again) == Retire(db, stamp)
  {
    NoLegacySourceIsLeft(db, stamp);
    JobsAfter(db.jobs, stamp);
    StandingAfter(db, stamp);
    NothingLeftToRetire(Retire(db, stamp), again);
  }

  lemma NothingLeftToRetire(db: Database, stamp: Time)
    requires SafeJobs(db.jobs) == {} && Standing(db) == 0
    requires ShadowRoutes(db.routes) == {} && LegacySources(db) == {}
    ensures Retire(db, stamp) == db
  {
    assert EnabledSettings(db.settings) == {} && FreshProfiles(db.profiles) == {};
    var after := Retire(db, stamp);
    hide LegacySources;
    assert after.jobs == db.jobs by {
      assert forall j :: j in db.jobs ==> j !in SafeJobs(db.jobs);
    }
    assert after.routes == db.routes by {
      assert forall r :: r in db.routes ==> r !in ShadowRoutes(db.routes);
    }
    assert after.settings == db.settings by {
      assert forall k :: k in db.settings ==> k !in EnabledSettings(db.settings);
    }
    assert after.profiles == db.profiles by {
      assert forall k :: k in db.profiles ==> k !in FreshProfiles(db.profiles);
    }
    assert after.sources == db.sources;
    assert db.bindings.Some? ==> after.bindings.value == db.bindings.value;
  }
}
