/** The v17 cost repair column by column, read off the original rows. */
module CostColumns {
  import opened Common
  import opened CostLedger
  import opened CostOrder

  // ---------------------------------------------------------------- the original rows

  /** The run was stamped last of its attempt and, among those stamped together, has the highest id. */
  ghost predicate IsLast(t: Tables, a: Key, r: Key) {
    && r in t.runs && t.runs[r].logicalRunId == Some(a)
    && forall s | s in t.runs && t.runs[s].logicalRunId == Some(a) ::
         t.runs[s].updatedAt < t.runs[r].updatedAt || (t.runs[s].updatedAt == t.runs[r].updatedAt && s <= r)
  }

  /** The last run of the attempt was rejected at its start, has no remote run and no dataset, and neither
      reserves nor charges anything. */
  ghost predicate NothingStarted(t: Tables, a: Key, r: Key) {
    && IsLast(t, a, r)
    && t.runs[r].status == "start_rejected"
    && t.runs[r].remoteRunId == None && t.runs[r].datasetId == None
    && t.runs[r].chargeReserved == 0.0
    && (t.runs[r].chargeActual == None || t.runs[r].chargeActual == Some(0.0))
  }

  ghost predicate Unstarted(t: Tables, a: Key) {
    exists r :: NothingStarted(t, a, r)
  }

  ghost predicate UnstartedRow(t: Tables, v: Key)
    requires v in t.validations
  {
    t.validations[v].attemptId.Some? && Unstarted(t, t.validations[v].attemptId.value)
  }

  ghost predicate RunIsFinal(t: Tables, a: Key, cost: Option<real>) {
    exists r :: IsLast(t, a, r) && t.runs[r].chargeFinal == 1 && t.runs[r].chargeActual.Some? && t.runs[r].chargeActual == cost
  }

  ghost predicate AttemptIsFinal(t: Tables, a: Key) {
    a in t.attempts && t.attempts[a].costFinal == 1 && t.attempts[a].actualCost.Some?
  }

  ghost predicate CancelledEarly(t: Tables, a: Key) {
    && a in t.attempts && t.attempts[a].status == "cancelled"
    && forall r | IsLast(t, a, r) :: t.runs[r].remoteRunId == None && t.runs[r].datasetId == None
  }

  // ---------------------------------------------------------------- the rows afterwards

  /** The cost columns: the amount if it is final, and whether it counts. */
  ghost predicate Costs(row: Validation, cost: Option<real>, counts: bool) {
    row.cost == cost && row.costFinal == cost.Some? && row.countsTowardCanary == counts
  }

  ghost predicate ValidationColumns(t: Tables, was: Validation, row: Validation) {
    && row.revisionId == was.revisionId && row.attemptId == was.attemptId
    && row.status == was.status && row.approvedMaxCost == was.approvedMaxCost
    && (if was.attemptId.None? then
          Costs(row, if was.status == "failed" || was.status == "cancelled" then Some(0.0) else None, false)
          && row.semanticOutcome == was.semanticOutcome
        else
          var a := was.attemptId.value;
          if Unstarted(t, a) then
            Costs(row, Some(0.0), false) && row.semanticOutcome == Some("apify_actor_revision_unavailable")
          else
            && row.semanticOutcome == was.semanticOutcome
            && (if exists c :: RunIsFinal(t, a, c) then RunIsFinal(t, a, row.cost) && Costs(row, row.cost, true)
                else if AttemptIsFinal(t, a) then Costs(row, t.attempts[a].actualCost, true)
                else if CancelledEarly(t, a) then Costs(row, Some(0.0), false)
                else Costs(row, None, true)))
  }

  /** Some validation in `done` has the attempt, and nothing was started for it. */
  ghost predicate AttemptFreed(t: Tables, done: set<Key>, a: Key) {
    Unstarted(t, a) && exists v :: v in done && v in t.validations && t.validations[v].attemptId == Some(a)
  }

  ghost predicate RevisionStopped(t: Tables, done: set<Key>, q: Key)
    requires q in t.revisions
  {
    && (t.revisions[q].lifecycle == "static_valid" || t.revisions[q].lifecycle == "probationary")
    && exists v :: v in done && v in t.validations && t.validations[v].revisionId == q && UnstartedRow(t, v)
  }

  ghost predicate RunColumns(t: Tables, done: set<Key>, r: Key, run: Run, now: int)
    requires r in t.runs
  {
    var a := t.runs[r].logicalRunId;
    if a.Some? && NothingStarted(t, a.value, r) && AttemptFreed(t, done, a.value) then
      run == t.runs[r].(chargeReserved := 0.0, chargeActual := Some(0.0), chargeFinal := 1, updatedAt := now)
    else run == t.runs[r]
  }

  ghost predicate AttemptColumns(t: Tables, done: set<Key>, a: Key, attempt: Attempt, now: int)
    requires a in t.attempts
  {
    var was := t.attempts[a];
    if was.status != "running" && AttemptFreed(t, done, a) then
      attempt == Attempt("cancelled", Some(0.0), 1,
        if was.lastErrorCode.Some? then was.lastErrorCode else Some("apify_actor_revision_unavailable"), now)
    else attempt == was
  }

  ghost predicate RevisionColumns(t: Tables, done: set<Key>, q: Key, revision: Revision)
    requires q in t.revisions
  {
    && revision.candidateId == t.revisions[q].candidateId
    && revision.lifecycle == if !RevisionStopped(t, done, q) then t.revisions[q].lifecycle
                             else if t.revisions[q].lifecycle == "static_valid" then "rejected"
                             else "quarantined"
  }

  ghost predicate CandidateColumns(t: Tables, done: set<Key>, c: Key, candidate: Candidate, now: int)
    requires c in t.candidates
  {
    if exists q | q in t.revisions :: t.revisions[q].candidateId == c && RevisionStopped(t, done, q) then
      candidate == Candidate("disabled", Some("apify_actor_revision_unavailable"), now)
    else candidate == t.candidates[c]
  }

  /** What the five tables hold once the validations in `done` have been processed. */
  ghost predicate Columns(t: Tables, done: set<Key>, now: int, u: Tables) {
    && u.validations.Keys == t.validations.Keys && u.runs.Keys == t.runs.Keys && u.attempts.Keys == t.attempts.Keys
    && u.revisions.Keys == t.revisions.Keys && u.candidates.Keys == t.candidates.Keys
    && (forall v | v in t.validations && v in done :: ValidationColumns(t, t.validations[v], u.validations[v]))
    && (forall v | v in t.validations && v !in done :: u.validations[v] == t.validations[v])
    && (forall r | r in t.runs :: RunColumns(t, done, r, u.runs[r], now))
    && (forall a | a in t.attempts :: AttemptColumns(t, done, a, u.attempts[a], now))
    && (forall q | q in t.revisions :: RevisionColumns(t, done, q, u.revisions[q]))
    && (forall c | c in t.candidates :: CandidateColumns(t, done, c, u.candidates[c], now))
  }

  // ---------------------------------------------------------------- what the ledger reads

  lemma LastIsLatest(t: Tables, a: Key, r: Key)
    ensures IsLast(t, a, r) <==> LatestRun(t.runs, a) == Some(r)
  {
  }

  lemma UnstartedIsProven(t: Tables, a: Key)
    ensures Unstarted(t, a) <==> ProvenNoStart(t.runs, a)
    ensures forall r :: NothingStarted(t, a, r) <==> ProvenNoStart(t.runs, a) && LatestRun(t.runs, a) == Some(r)
  {
    forall r {
      LastIsLatest(t, a, r);
    }
    hide LatestRun, IsLast;
    if ProvenNoStart(t.runs, a) {
      assert NothingStarted(t, a, LatestRun(t.runs, a).value);
    }
  }

  lemma FinalAmounts(t: Tables, a: Key)
    ensures (exists c :: RunIsFinal(t, a, c)) ==> FinalCost(t, a).Some? && RunIsFinal(t, a, FinalCost(t, a))
    ensures !(exists c :: RunIsFinal(t, a, c)) ==> FinalCost(t, a) == if AttemptIsFinal(t, a) then t.attempts[a].actualCost else None
    ensures CancelledEarly(t, a) <==> CancelledWithoutStart(t, a)
  {
    forall r {
      LastIsLatest(t, a, r);
    }
    hide LatestRun, IsLast;
    var r := LatestRun(t.runs, a);
    if r.Some? && t.runs[r.value].chargeFinal == 1 && t.runs[r.value].chargeActual.Some? {
      assert RunIsFinal(t, a, t.runs[r.value].chargeActual);
    }
  }

  lemma SettledColumns(t: Tables, v: Key)
    requires v in t.validations
    ensures ValidationColumns(t, t.validations[v], Settle(Classify(t, v), t.validations[v]))
    ensures UnstartedRow(t, v) <==> Classify(t, v).NoStart?
  {
    if t.validations[v].attemptId.Some? {
      UnstartedIsProven(t, t.validations[v].attemptId.value);
      FinalAmounts(t, t.validations[v].attemptId.value);
    }
    hide FinalCost, CancelledWithoutStart, CancelledEarly, ProvenNoStart, LatestRun, RunIsFinal, AttemptIsFinal, Unstarted;
  }

  // ---------------------------------------------------------------- the reference tables

  lemma AttemptHitIsFreed(t: Tables, done: set<Key>, a: Key)
    ensures AttemptHit(t, done, a) <==> AttemptFreed(t, done, a)
  {
    UnstartedIsProven(t, a);
    hide ProvenNoStart, Unstarted;
  }

  lemma StopsRows(t: Tables, v: Key)
    requires v in t.validations
    ensures Stops(t, v) <==>
      var q := t.validations[v].revisionId;
      && UnstartedRow(t, v) && q in t.revisions
      && (t.revisions[q].lifecycle == "static_valid" || t.revisions[q].lifecycle == "probationary")
  {
    SettledColumns(t, v);
    hide Classify, UnstartedRow;
  }

  lemma RevisionHitIsStopped(t: Tables, done: set<Key>, q: Key)
    ensures RevisionHit(t, done, q) <==> q in t.revisions && RevisionStopped(t, done, q)
  {
    forall v | v in t.validations {
      StopsRows(t, v);
    }
    hide Stops, UnstartedRow;
    if q in t.revisions && RevisionStopped(t, done, q) {
      var v :| v in done && v in t.validations && t.validations[v].revisionId == q && UnstartedRow(t, v);
      assert Stops(t, v);
    }
  }

  lemma ReferenceRun(t: Tables, done: set<Key>, now: int, r: Key)
    requires r in t.runs
    ensures RunColumns(t, done, r, Reference(t, done, now).runs[r], now)
  {
    var a := t.runs[r].logicalRunId;
    if a.Some? {
      AttemptHitIsFreed(t, done, a.value);
      UnstartedIsProven(t, a.value);
    }
    hide AttemptHit, AttemptFreed, NothingStarted, LatestRun, ProvenNoStart;
    assert RunHit(t, done, r) <==> a.Some? && NothingStarted(t, a.value, r) && AttemptFreed(t, done, a.value) by {
      assert a.Some? && AttemptHit(t, done, a.value) ==> ProvenNoStart(t.runs, a.value) by {
        if a.Some? {
          HitIsProven(t, done, a.value);
        }
      }
    }
    assert Reference(t, done, now).runs[r] == if RunHit(t, done, r) then FreeRun(t.runs[r], now) else t.runs[r];
  }

  lemma HitIsProven(t: Tables, done: set<Key>, a: Key)
    ensures AttemptHit(t, done, a) ==> ProvenNoStart(t.runs, a)
  {
  }

  lemma ReferenceAttempt(t: Tables, done: set<Key>, now: int, a: Key)
    requires a in t.attempts
    ensures AttemptColumns(t, done, a, Reference(t, done, now).attempts[a], now)
  {
    AttemptHitIsFreed(t, done, a);
    hide AttemptHit, AttemptFreed;
  }

  lemma ReferenceCandidate(t: Tables, done: set<Key>, now: int, c: Key)
    requires c in t.candidates
    ensures CandidateColumns(t, done, c, Reference(t, done, now).candidates[c], now)
  {
    forall q {
      RevisionHitIsStopped(t, done, q);
    }
    hide RevisionHit, RevisionStopped;
    assert CandidateHit(t, done, c) <==>
      exists q | q in t.revisions :: t.revisions[q].candidateId == c && RevisionStopped(t, done, q);
  }

  lemma ReferenceRevision(t: Tables, done: set<Key>, now: int, q: Key)
    requires q in t.revisions
    ensures RevisionColumns(t, done, q, Reference(t, done, now).revisions[q])
  {
    RevisionHitIsStopped(t, done, q);
    hide RevisionHit;
  }

  lemma ReferenceKeys(t: Tables, done: set<Key>, now: int)
    ensures var u := Reference(t, done, now);
      && u.validations.Keys == t.validations.Keys && u.runs.Keys == t.runs.Keys && u.attempts.Keys == t.attempts.Keys
      && u.revisions.Keys == t.revisions.Keys && u.candidates.Keys == t.candidates.Keys
      && (forall v | v in t.validations && v !in done :: u.validations[v] == t.validations[v])
      && (forall v | v in t.validations && v in done :: u.validations[v] == Settle(Classify(t, v), t.validations[v]))
  {
    hide Classify, Settle, RunHit, AttemptHit, RevisionHit, CandidateHit;
  }

  lemma ReferenceColumns(t: Tables, done: set<Key>, now: int)
    ensures Columns(t, done, now, Reference(t, done, now))
  {
    hide Reference, Classify, Settle, ValidationColumns, RunColumns, AttemptColumns, RevisionColumns, CandidateColumns;
    ReferenceKeys(t, done, now);
    forall v | v in t.validations {
      SettledColumns(t, v);
    }
    forall r | r in t.runs {
      ReferenceRun(t, done, now, r);
    }
    forall a | a in t.attempts {
      ReferenceAttempt(t, done, now, a);
    }
    forall q | q in t.revisions {
      ReferenceRevision(t, done, now, q);
    }
    forall c | c in t.candidates {
      ReferenceCandidate(t, done, now, c);
    }
  }

  // ---------------------------------------------------------------- one round, and the whole repair

  lemma OneHit(t: Tables, v: Key, a: Key, q: Key)
    requires v in t.validations
    ensures AttemptHit(t, {v}, a) <==> Classify(t, v).NoStart? && t.validations[v].attemptId == Some(a)
    ensures RevisionHit(t, {v}, q) <==> Stops(t, v) && t.validations[v].revisionId == q
  {
    hide LatestRun, FinalCost, CancelledWithoutStart, ProvenNoStart, Stops;
  }

  /** In any ledger, a round does to the tables what the columns of the old ones say of its validation. */
  lemma RoundColumns(s: State, v: Key, now: int)
    requires v in s.tables.validations
    ensures Columns(s.tables, {v}, now, Step(s, v, now).tables)
  {
    var t, u := s.tables, Step(s, v, now).tables;
    ReferenceColumns(t, {v}, now);
    RoundRuns(t, v, now);
    RoundAttempts(t, v, now);
    RoundStops(t, v, now);
    RoundRows(s, v, now);
    hide Reference, Columns, Step;
    assert u == Reference(t, {v}, now);
  }

  lemma RoundRows(s: State, v: Key, now: int)
    requires v in s.tables.validations
    ensures var t, u := s.tables, Step(s, v, now).tables;
      && u.validations == Reference(t, {v}, now).validations && u.runs == StepRuns(t, v, now)
      && u.attempts == StepAttempts(t, v, now) && u.revisions == StepRevisions(t, v)
      && u.candidates == StepCandidates(t, v, now)
  {
    hide Classify, Settle, StepRuns, StepAttempts, StepRevisions, StepCandidates, StepCounts;
  }

  lemma RoundRuns(t: Tables, v: Key, now: int)
    requires v in t.validations
    ensures StepRuns(t, v, now) == Reference(t, {v}, now).runs
  {
    forall r | r in t.runs ensures RunHit(t, {v}, r) <==> Classify(t, v) == NoStart(r) {
      if t.runs[r].logicalRunId.Some? {
        OneHit(t, v, t.runs[r].logicalRunId.value, 0);
      }
    }
    hide Classify, RunHit;
  }

  lemma RoundAttempts(t: Tables, v: Key, now: int)
    requires v in t.validations
    ensures StepAttempts(t, v, now) == Reference(t, {v}, now).attempts
  {
    forall a | a in t.attempts {
      OneHit(t, v, a, 0);
    }
    assert Classify(t, v).NoStart? ==> t.validations[v].attemptId.Some?;
    hide Classify, AttemptHit;
  }

  lemma RoundStops(t: Tables, v: Key, now: int)
    requires v in t.validations
    ensures StepRevisions(t, v) == Reference(t, {v}, now).revisions
    ensures StepCandidates(t, v, now) == Reference(t, {v}, now).candidates
  {
    forall q {
      OneHit(t, v, 0, q);
    }
    assert Stops(t, v) ==> t.validations[v].revisionId in t.revisions;
    hide Stops, RevisionHit;
    forall c | c in t.candidates
      ensures CandidateHit(t, {v}, c) <==> Stops(t, v) && t.revisions[t.validations[v].revisionId].candidateId == c
    {
    }
    hide CandidateHit;
  }

  lemma ResetReadsAttempt(t: Tables, a: Key)
    ensures var t0 := Reset(t);
      && (forall r :: NothingStarted(t0, a, r) <==> NothingStarted(t, a, r))
      && (Unstarted(t0, a) <==> Unstarted(t, a))
      && (forall c :: RunIsFinal(t0, a, c) <==> RunIsFinal(t, a, c))
      && (AttemptIsFinal(t0, a) <==> AttemptIsFinal(t, a)) && (CancelledEarly(t0, a) <==> CancelledEarly(t, a))
  {
    forall r ensures IsLast(Reset(t), a, r) <==> IsLast(t, a, r) {
    }
    hide IsLast;
    forall r ensures NothingStarted(Reset(t), a, r) <==> NothingStarted(t, a, r) {
    }
  }

  lemma ResetReadsValidation(t: Tables, v: Key, row: Validation)
    requires v in t.validations
    ensures ValidationColumns(Reset(t), Reset(t).validations[v], row) ==> ValidationColumns(t, t.validations[v], row)
    ensures Reset(t).validations[v].attemptId == t.validations[v].attemptId
    ensures Reset(t).validations[v].revisionId == t.validations[v].revisionId
    ensures UnstartedRow(Reset(t), v) <==> UnstartedRow(t, v)
  {
    assert Reset(t).validations[v] == ResetRow(t.validations[v]);
    assert Reset(t).attempts == t.attempts;
    if t.validations[v].attemptId.Some? {
      ResetReadsAttempt(t, t.validations[v].attemptId.value);
    }
    hide Reset, Unstarted, RunIsFinal, AttemptIsFinal, CancelledEarly;
  }

  lemma ResetReadsRows(t: Tables)
    ensures var t0, keys := Reset(t), t.validations.Keys;
      && (forall v, row | v in keys && ValidationColumns(t0, t0.validations[v], row) :: ValidationColumns(t, t.validations[v], row))
      && (forall v | v in keys :: UnstartedRow(t0, v) <==> UnstartedRow(t, v))
      && (forall a :: AttemptFreed(t0, keys, a) <==> AttemptFreed(t, keys, a))
      && (forall q | q in t.revisions :: RevisionStopped(t0, keys, q) <==> RevisionStopped(t, keys, q))
  {
    var t0, keys := Reset(t), t.validations.Keys;
    assert t0.validations.Keys == keys && t0.revisions == t.revisions;
    hide Reset, ValidationColumns, UnstartedRow, Unstarted, NothingStarted;
    forall v, row | v in keys {
      ResetReadsValidation(t, v, row);
    }
    forall a {
      ResetReadsAttempt(t, a);
    }
  }

  lemma ResetReadsColumns(t: Tables, now: int, u: Tables)
    requires Columns(Reset(t), t.validations.Keys, now, u)
    ensures Columns(t, t.validations.Keys, now, u)
  {
    var t0 := Reset(t);
    assert t0.validations.Keys == t.validations.Keys && t0.runs == t.runs && t0.attempts == t.attempts;
    assert t0.revisions == t.revisions && t0.candidates == t.candidates;
    ResetReadsRows(t);
    forall a {
      ResetReadsAttempt(t, a);
    }
    hide Reset, ValidationColumns, UnstartedRow, Unstarted, NothingStarted, AttemptFreed, RevisionStopped;
  }

  /** The repair of a whole ledger under stable stamps, in any order: every column of every table, read off the
      original rows. */
  lemma RepairColumns(t: Tables, order: seq<Key>, now: int)
    requires Stable(t, now) && Enumerates(order, t.validations.Keys)
    ensures Columns(t, t.validations.Keys, now, Repair(t, order, now).tables)
  {
    RepairIsReference(t, order, now);
    ReferenceColumns(Reset(t), t.validations.Keys, now);
    hide Repair, Reference, Columns;
    ResetReadsColumns(t, now, Repair(t, order, now).tables);
  }

  // ---------------------------------------------------------------- the counters

  /** The validation has an attempt, something may have started for it, and its amount is final. */
  ghost predicate FinalRow(t: Tables, v: Key)
    requires v in t.validations
  {
    t.validations[v].attemptId.Some? &&
    var a := t.validations[v].attemptId.value;
    !Unstarted(t, a) && ((exists c :: RunIsFinal(t, a, c)) || AttemptIsFinal(t, a))
  }

  ghost predicate NeverTried(row: Validation) {
    row.attemptId.None? && (row.status == "failed" || row.status == "cancelled")
  }

  lemma ClassesRead(t: Tables, v: Key)
    requires v in t.validations
    ensures Classify(t, v).NoStart? <==> UnstartedRow(t, v)
    ensures Classify(t, v).Reconciled? <==> FinalRow(t, v)
    ensures Classify(t, v).Unstarted? <==> NeverTried(t.validations[v])
  {
    SettledColumns(t, v);
    if t.validations[v].attemptId.Some? {
      UnstartedIsProven(t, t.validations[v].attemptId.value);
      FinalAmounts(t, t.validations[v].attemptId.value);
    }
    hide LatestRun, FinalCost, CancelledWithoutStart, ProvenNoStart, RunIsFinal, Unstarted, CancelledEarly;
  }

  /** The counters of a round. */
  lemma RoundCounts(s: State, v: Key, now: int)
    requires v in s.tables.validations
    ensures var t, was, c := s.tables, s.counts, Step(s, v, now).counts;
      var q := t.validations[v].revisionId;
      && c.noStart == was.noStart + (if UnstartedRow(t, v) then 1 else 0)
      && c.reconciled == was.reconciled + (if FinalRow(t, v) then 1 else 0)
      && c.unstarted == was.unstarted + (if NeverTried(t.validations[v]) then 1 else 0)
      && c.stopped == was.stopped + (if q in t.revisions && RevisionStopped(t, {v}, q) then 1 else 0)
  {
    ClassesRead(s.tables, v);
    StopsRows(s.tables, v);
    hide Classify, UnstartedRow, FinalRow, NeverTried, Stops, StepRuns, StepAttempts, StepRevisions, StepCandidates;
  }

  /** The counters of a whole repair are the numbers of rows of each kind. */
  lemma RepairCounts(t: Tables, order: seq<Key>, now: int)
    requires Stable(t, now) && Enumerates(order, t.validations.Keys)
    ensures var c, keys := Repair(t, order, now).counts, t.validations.Keys;
      && c.noStart == |set v | v in keys && UnstartedRow(t, v)|
      && c.reconciled == |set v | v in keys && FinalRow(t, v)|
      && c.unstarted == |set v | v in keys && NeverTried(t.validations[v])|
      && c.stopped == |set q | q in t.revisions && RevisionStopped(t, keys, q)|
  {
    RepairIsReference(t, order, now);
    ClassesAreRows(t);
    StoppedAreRows(t);
    hide Repair, Reference, Reset, UnstartedRow, FinalRow, RevisionStopped, NeverTried, NoStarts, FinalCosts, Unstarteds,
      StoppedRevisions, Stable;
  }

  lemma ClassesAreRows(t: Tables)
    ensures var t0, keys := Reset(t), t.validations.Keys;
      && NoStarts(t0, keys) == (set v | v in keys && UnstartedRow(t, v))
      && FinalCosts(t0, keys) == (set v | v in keys && FinalRow(t, v))
      && Unstarteds(t0, keys) == set v | v in keys && NeverTried(t.validations[v])
  {
    var t0, keys := Reset(t), t.validations.Keys;
    assert t0.validations.Keys == keys;
    forall v | v in keys
      ensures Classify(t0, v).NoStart? <==> UnstartedRow(t, v)
      ensures Classify(t0, v).Reconciled? <==> FinalRow(t, v)
      ensures Classify(t0, v).Unstarted? <==> NeverTried(t.validations[v])
    {
      ResetReadsFinal(t, v);
      ResetReadsValidation(t, v, t.validations[v]);
      ClassesRead(t0, v);
      assert t0.validations[v] == ResetRow(t.validations[v]);
      hide Reset, Classify, UnstartedRow, FinalRow;
    }
    hide Reset, Classify, UnstartedRow, FinalRow, NeverTried;
  }

  lemma StoppedAreRows(t: Tables)
    ensures StoppedRevisions(Reset(t), t.validations.Keys)
      == set q | q in t.revisions && RevisionStopped(t, t.validations.Keys, q)
  {
    ResetReadsRows(t);
    forall q {
      RevisionHitIsStopped(Reset(t), t.validations.Keys, q);
    }
    assert Reset(t).revisions == t.revisions;
    hide Reset, RevisionHit, RevisionStopped;
  }

  lemma ResetReadsFinal(t: Tables, v: Key)
    requires v in t.validations
    ensures v in Reset(t).validations && (FinalRow(Reset(t), v) <==> FinalRow(t, v))
  {
    assert Reset(t).validations[v] == ResetRow(t.validations[v]);
    if t.validations[v].attemptId.Some? {
      ResetReadsAttempt(t, t.validations[v].attemptId.value);
    }
    hide Reset, Unstarted, RunIsFinal, AttemptIsFinal;
  }
}
