/** What the v17 cost repair guarantees over every ledger and every processing order. */
module CostRepair {
  import opened Common
  import opened CostLedger

  // ------------------------------------------------------------ facts that hold of every run

  /** An amount the ledger marks final for an attempt, or the zero of a proven no-start. */
  ghost predicate LedgerAmount(t: Tables, a: Key, c: real) {
    || c == 0.0
    || (exists r :: r in t.runs && t.runs[r].logicalRunId == Some(a)
                    && t.runs[r].chargeFinal == 1 && t.runs[r].chargeActual == Some(c))
    || (a in t.attempts && t.attempts[a].costFinal == 1 && t.attempts[a].actualCost == Some(c))
  }

  ghost predicate Backed(t: Tables, row: Validation) {
    && (row.costFinal <==> row.cost.Some?)
    && (row.cost.Some? && row.attemptId.None? ==> row.cost.value == 0.0)
    && (row.cost.Some? && row.attemptId.Some? ==> LedgerAmount(t, row.attemptId.value, row.cost.value))
  }

  /** A run keeps every column, or it was rejected at its start, has no remote run, no dataset and no charge,
      and its charge is now final zero. */
  ghost predicate RunKept(was: Run, run: Run) {
    run == was
    || (&& was.status == "start_rejected" && was.remoteRunId == None && was.datasetId == None
        && was.chargeReserved == 0.0 && (was.chargeActual == None || was.chargeActual == Some(0.0))
        && run == was.(chargeReserved := 0.0, chargeActual := Some(0.0), chargeFinal := 1, updatedAt := run.updatedAt))
  }

  /** An attempt keeps every column, or it was not running and is now cancelled at no cost, with its old error
      code if it had one. */
  ghost predicate AttemptKept(was: Attempt, attempt: Attempt) {
    attempt == was
    || (was.status != "running" && attempt == Attempt("cancelled", Some(0.0), 1,
          if was.lastErrorCode.Some? then was.lastErrorCode else Some("apify_actor_revision_unavailable"),
          attempt.updatedAt))
  }

  /** A revision keeps its lifecycle, or it could be stopped and was. */
  ghost predicate RevisionKept(was: Revision, revision: Revision) {
    revision == was
    || (was.lifecycle == "static_valid" && revision == was.(lifecycle := "rejected"))
    || (was.lifecycle == "probationary" && revision == was.(lifecycle := "quarantined"))
  }

  ghost predicate CandidateKept(was: Candidate, candidate: Candidate) {
    || candidate == was
    || candidate == Candidate("disabled", Some("apify_actor_revision_unavailable"), candidate.updatedAt)
  }

  ghost predicate SameIdentity(was: Validation, row: Validation) {
    && row.attemptId == was.attemptId
    && row.revisionId == was.revisionId
    && row.status == was.status
    && row.approvedMaxCost == was.approvedMaxCost
  }

  ghost predicate ValidationsKept(t: Tables, u: Tables) {
    u.validations.Keys == t.validations.Keys
    && forall v :: v in t.validations ==> SameIdentity(t.validations[v], u.validations[v])
  }

  ghost predicate RunsKept(t: Tables, u: Tables) {
    u.runs.Keys == t.runs.Keys && forall r :: r in t.runs ==> RunKept(t.runs[r], u.runs[r])
  }

  ghost predicate AttemptsKept(t: Tables, u: Tables) {
    u.attempts.Keys == t.attempts.Keys
    && forall a :: a in t.attempts ==> AttemptKept(t.attempts[a], u.attempts[a])
  }

  ghost predicate StopsKept(t: Tables, u: Tables) {
    && u.revisions.Keys == t.revisions.Keys && u.candidates.Keys == t.candidates.Keys
    && (forall q :: q in t.revisions ==> RevisionKept(t.revisions[q], u.revisions[q]))
    && (forall c :: c in t.candidates ==> CandidateKept(t.candidates[c], u.candidates[c]))
  }

  ghost predicate Preserves(t: Tables, u: Tables) {
    ValidationsKept(t, u) && RunsKept(t, u) && AttemptsKept(t, u) && StopsKept(t, u)
  }

  /** What one step does to the runs, the attempts and the validations, whatever its outcome. */
  lemma StepPreserves(s: State, v: Key, now: int)
    requires v in s.tables.validations
    ensures Preserves(s.tables, Step(s, v, now).tables)
    ensures forall w :: w in s.tables.validations && w != v ==>
      Step(s, v, now).tables.validations[w] == s.tables.validations[w]
    ensures Step(s, v, now).tables.validations[v]
      == Settle(Classify(s.tables, v), s.tables.validations[v])
  {
    StepRunsKept(s.tables, v, now);
    StepAttemptsKept(s.tables, v, now);
    StepStopsKept(s.tables, v, now);
    hide StepRuns, StepAttempts, StepRevisions, StepCandidates, StepCounts, Classify;
  }

  lemma StepRunsKept(t: Tables, v: Key, now: int)
    requires v in t.validations
    ensures RunsKept(t, t.(runs := StepRuns(t, v, now)))
  {
  }

  lemma StepAttemptsKept(t: Tables, v: Key, now: int)
    requires v in t.validations
    ensures AttemptsKept(t, t.(attempts := StepAttempts(t, v, now)))
  {
    hide Classify;
  }

  lemma StepStopsKept(t: Tables, v: Key, now: int)
    requires v in t.validations
    ensures StopsKept(t, t.(revisions := StepRevisions(t, v), candidates := StepCandidates(t, v, now)))
  {
    hide Classify;
  }

  lemma PreservesTransitive(t: Tables, u: Tables, w: Tables)
    requires Preserves(t, u) && Preserves(u, w)
    ensures Preserves(t, w)
  {
    forall r | r in t.runs ensures RunKept(t.runs[r], w.runs[r]) {
      assert RunKept(t.runs[r], u.runs[r]) && RunKept(u.runs[r], w.runs[r]);
    }
    forall a | a in t.attempts ensures AttemptKept(t.attempts[a], w.attempts[a]) {
      assert AttemptKept(t.attempts[a], u.attempts[a]) && AttemptKept(u.attempts[a], w.attempts[a]);
    }
  }

  lemma OutcomeIsBacked(t: Tables, u: Tables, v: Key)
    requires Preserves(t, u) && v in u.validations
    ensures Backed(t, Settle(Classify(u, v), u.validations[v]))
  {
    var o := Classify(u, v);
    if o.Reconciled? {
      var a := u.validations[v].attemptId.value;
      var r := LatestRun(u.runs, a);
      if r.Some? && u.runs[r.value].chargeFinal == 1 && u.runs[r.value].chargeActual.Some? {
        assert RunKept(t.runs[r.value], u.runs[r.value]);
      } else {
        assert AttemptKept(t.attempts[a], u.attempts[a]);
      }
    }
  }

  /** Over every ledger and every order: a processed cost is final exactly when it is known, it is
      zero or an amount the original ledger marks final, runs with a remote run or dataset and
      attempts still running keep every column, and the approved cap is never moved. */
  lemma {:induction false} EveryCostIsBacked(t: Tables, order: seq<Key>, now: int)
    requires forall v :: v in order ==> v in t.validations
    ensures Preserves(t, Repair(t, order, now).tables)
    ensures forall v :: v in order ==> Backed(t, Repair(t, order, now).tables.validations[v])
  {
    if order != [] {
      hide Step, Classify, Settle, Backed, Preserves, Reset;
      var n := |order| - 1;
      EveryCostIsBacked(t, order[..n], now);
      var s := Repair(t, order[..n], now);
      StepPreserves(s, order[n], now);
      PreservesTransitive(t, s.tables, Step(s, order[n], now).tables);
      OutcomeIsBacked(t, s.tables, order[n]);
    }
  }
}
