/** The cost ledger of the Actor validations and the v17 repair that runs over it. */
module CostLedger {
  import opened Common

  /** A row id. Only equality and the order SQLite gives the id texts are used. */
  type Key = int

  datatype Validation = Validation(
    revisionId: Key,
    attemptId: Option<Key>,
    status: string,
    cost: Option<real>,
    approvedMaxCost: Option<real>,
    costFinal: bool,
    countsTowardCanary: bool,
    semanticOutcome: Option<string>)

  datatype Attempt = Attempt(
    status: string,
    actualCost: Option<real>,
    costFinal: int,
    lastErrorCode: Option<string>,
    updatedAt: int)

  datatype Run = Run(
    logicalRunId: Option<Key>,
    status: string,
    remoteRunId: Option<string>,
    datasetId: Option<string>,
    chargeReserved: real,
    chargeActual: Option<real>,
    chargeFinal: int,
    updatedAt: int)

  datatype Revision = Revision(candidateId: Key, lifecycle: string)

  datatype Candidate = Candidate(state: string, lastErrorCode: Option<string>, updatedAt: int)

  /** The contents of the five tables. */
  datatype Tables = Tables(
    validations: map<Key, Validation>,
    attempts: map<Key, Attempt>,
    runs: map<Key, Run>,
    revisions: map<Key, Revision>,
    candidates: map<Key, Candidate>)

  datatype Counts = Counts(noStart: nat, reconciled: nat, unstarted: nat, stopped: nat)

  datatype State = State(tables: Tables, counts: Counts)

  /** What the ledger says about one validation. */
  datatype Outcome =
    | Unstarted             // no attempt, and the validation failed or was cancelled
    | Waiting               // no attempt yet
    | NoStart(run: Key)     // the ledger proves that no remote run was ever started
    | Reconciled(amount: real)
    | Open(cancelled: bool) // no final amount; cancelled before anything started, or still open

  const UNAVAILABLE := "apify_actor_revision_unavailable"
  const NO_COUNTS := Counts(0, 0, 0, 0)

  // ---------------------------------------------------------------- reading the ledger

  /** Run `r` comes no later than run `s` in the order (updated_at, id). */
  predicate NotAfter(runs: map<Key, Run>, r: Key, s: Key)
    requires r in runs && s in runs
  {
    runs[r].updatedAt < runs[s].updatedAt || (runs[r].updatedAt == runs[s].updatedAt && r <= s)
  }

  predicate IsLatestAmong(runs: map<Key, Run>, a: Key, among: set<Key>, r: Key)
    requires among <= runs.Keys
  {
    && r in among
    && runs[r].logicalRunId == Some(a)
    && forall s :: s in among && runs[s].logicalRunId == Some(a) ==> NotAfter(runs, s, r)
  }

  predicate IsLatest(runs: map<Key, Run>, a: Key, r: Key) {
    IsLatestAmong(runs, a, runs.Keys, r)
  }

  predicate HasRun(runs: map<Key, Run>, a: Key) {
    exists r :: r in runs && runs[r].logicalRunId == Some(a)
  }

  lemma {:induction false} LatestExists(runs: map<Key, Run>, a: Key, among: set<Key>)
    requires among <= runs.Keys
    requires exists r :: r in among && runs[r].logicalRunId == Some(a)
    ensures exists r :: IsLatestAmong(runs, a, among, r)
    decreases among
  {
    var r :| r in among && runs[r].logicalRunId == Some(a);
    var rest := among - {r};
    if exists s :: s in rest && runs[s].logicalRunId == Some(a) {
      LatestExists(runs, a, rest);
      var best :| IsLatestAmong(runs, a, rest, best);
      assert IsLatestAmong(runs, a, among, if NotAfter(runs, r, best) then best else r);
    } else {
      assert IsLatestAmong(runs, a, among, r);
    }
  }

  /** The run `ORDER BY updated_at DESC, id DESC LIMIT 1` picks for an attempt. */
  function LatestRun(runs: map<Key, Run>, a: Key): (r: Option<Key>)
    ensures r.None? <==> !HasRun(runs, a)
    ensures r.Some? ==> IsLatest(runs, a, r.value)
  {
    if !HasRun(runs, a) then None
    else
      LatestExists(runs, a, runs.Keys);
      var r :| r in runs && IsLatest(runs, a, r);
      Some(r)
  }

  /** The run shows a rejected start, no remote identifier and no charge. */
  predicate RejectedFree(run: Run) {
    && run.status == "start_rejected"
    && run.remoteRunId.None?
    && run.datasetId.None?
    && run.chargeReserved == 0.0
    && (run.chargeActual.None? || run.chargeActual.value == 0.0)
  }

  predicate ProvenNoStart(runs: map<Key, Run>, a: Key) {
    var r := LatestRun(runs, a);
    r.Some? && RejectedFree(runs[r.value])
  }

  /** The amount the ledger marks final for an attempt; the run is asked before the attempt. */
  function FinalCost(t: Tables, a: Key): Option<real> {
    var r := LatestRun(t.runs, a);
    if r.Some? && t.runs[r.value].chargeFinal == 1 && t.runs[r.value].chargeActual.Some? then
      t.runs[r.value].chargeActual
    else if a in t.attempts && t.attempts[a].costFinal == 1 then
      t.attempts[a].actualCost
    else
      None
  }

  predicate CancelledWithoutStart(t: Tables, a: Key) {
    var r := LatestRun(t.runs, a);
    && (r.None? || (t.runs[r.value].remoteRunId.None? && t.runs[r.value].datasetId.None?))
    && a in t.attempts
    && t.attempts[a].status == "cancelled"
  }

  function Classify(t: Tables, v: Key): Outcome
    requires v in t.validations
  {
    var row := t.validations[v];
    if row.attemptId.None? then
      if row.status == "failed" || row.status == "cancelled" then Unstarted else Waiting
    else
      var a := row.attemptId.value;
      if ProvenNoStart(t.runs, a) then NoStart(LatestRun(t.runs, a).value)
      else if FinalCost(t, a).Some? then Reconciled(FinalCost(t, a).value)
      else Open(CancelledWithoutStart(t, a))
  }

  // ---------------------------------------------------------------- the effect on each row

  function Settle(o: Outcome, row: Validation): Validation {
    match o
    case Unstarted => row.(cost := Some(0.0), costFinal := true, countsTowardCanary := false)
    case Waiting => row.(cost := None, costFinal := false, countsTowardCanary := false)
    case NoStart(_) => row.(cost := Some(0.0), costFinal := true, countsTowardCanary := false,
                            semanticOutcome := Some(UNAVAILABLE))
    case Reconciled(c) => row.(cost := Some(c), costFinal := true, countsTowardCanary := true)
    case Open(cancelled) => row.(cost := if cancelled then Some(0.0) else None,
                                 costFinal := cancelled, countsTowardCanary := !cancelled)
  }

  function FreeRun(run: Run, now: int): Run {
    run.(chargeReserved := 0.0, chargeActual := Some(0.0), chargeFinal := 1, updatedAt := now)
  }

  /** `UPDATE ... WHERE status != 'running'`: a running attempt is left alone. */
  function FreeAttempt(attempt: Attempt, now: int): Attempt {
    if attempt.status == "running" then attempt
    else attempt.(status := "cancelled", actualCost := Some(0.0), costFinal := 1,
                  lastErrorCode := Some(attempt.lastErrorCode.GetOr(UNAVAILABLE)), updatedAt := now)
  }

  predicate Stoppable(revision: Revision) {
    revision.lifecycle == "static_valid" || revision.lifecycle == "probationary"
  }

  function StopRevision(revision: Revision): Revision {
    revision.(lifecycle := if revision.lifecycle == "static_valid" then "rejected" else "quarantined")
  }

  function DisableCandidate(candidate: Candidate, now: int): Candidate {
    candidate.(state := "disabled", lastErrorCode := Some(UNAVAILABLE), updatedAt := now)
  }

  /** The first UPDATE: no cost is final, and a validation counts when it has an attempt. */
  function ResetRow(row: Validation): Validation {
    row.(costFinal := false, countsTowardCanary := row.attemptId.Some?)
  }

  function Reset(t: Tables): Tables {
    t.(validations := map v | v in t.validations :: ResetRow(t.validations[v]))
  }

  /** `UPDATE ... WHERE id = ?` on a row that may be missing. */
  function Update<V>(m: map<Key, V>, k: Key, f: V -> V): map<Key, V> {
    if k in m then m[k := f(m[k])] else m
  }

  /** The step on validation `v` also stops its revision and disables the revision's candidate. */
  predicate Stops(t: Tables, v: Key)
    requires v in t.validations
  {
    var revision := t.validations[v].revisionId;
    Classify(t, v).NoStart? && revision in t.revisions && Stoppable(t.revisions[revision])
  }

  function StepRuns(t: Tables, v: Key, now: int): map<Key, Run>
    requires v in t.validations
  {
    var o := Classify(t, v);
    if o.NoStart? then t.runs[o.run := FreeRun(t.runs[o.run], now)] else t.runs
  }

  function StepAttempts(t: Tables, v: Key, now: int): map<Key, Attempt>
    requires v in t.validations
  {
    if Classify(t, v).NoStart? then Update(t.attempts, t.validations[v].attemptId.value, a => FreeAttempt(a, now))
    else t.attempts
  }

  function StepRevisions(t: Tables, v: Key): map<Key, Revision>
    requires v in t.validations
  {
    var revision := t.validations[v].revisionId;
    if Stops(t, v) then t.revisions[revision := StopRevision(t.revisions[revision])] else t.revisions
  }

  function StepCandidates(t: Tables, v: Key, now: int): map<Key, Candidate>
    requires v in t.validations
  {
    if Stops(t, v) then
      Update(t.candidates, t.revisions[t.validations[v].revisionId].candidateId, c => DisableCandidate(c, now))
    else t.candidates
  }

  function StepCounts(t: Tables, c: Counts, v: Key): Counts
    requires v in t.validations
  {
    var o := Classify(t, v);
    Counts(c.noStart + if o.NoStart? then 1 else 0,
           c.reconciled + if o.Reconciled? then 1 else 0,
           c.unstarted + if o.Unstarted? then 1 else 0,
           c.stopped + if Stops(t, v) then 1 else 0)
  }

  /** One iteration of the loop, as a function of the tables it reads. */
  function Step(s: State, v: Key, now: int): State
    requires v in s.tables.validations
  {
    var t := s.tables;
    State(
      Tables(t.validations[v := Settle(Classify(t, v), t.validations[v])],
             StepAttempts(t, v, now), StepRuns(t, v, now), StepRevisions(t, v), StepCandidates(t, v, now)),
      StepCounts(t, s.counts, v))
  }

  /** The whole loop over the validations in the given order. */
  function Fold(s: State, order: seq<Key>, now: int): (r: State)
    requires forall v :: v in order ==> v in s.tables.validations
    ensures r.tables.validations.Keys == s.tables.validations.Keys
  {
    if order == [] then s
    else
      var before := Fold(s, order[..|order| - 1], now);
      Step(before, order[|order| - 1], now)
  }

  function Repair(t: Tables, order: seq<Key>, now: int): State
    requires forall v :: v in order ==> v in t.validations
  {
    Fold(State(Reset(t), NO_COUNTS), order, now)
  }

  lemma FoldNext(s: State, order: seq<Key>, i: nat, now: int)
    requires forall v :: v in order ==> v in s.tables.validations
    requires i < |order|
    ensures Fold(s, order[..i + 1], now) == Step(Fold(s, order[..i], now), order[i], now)
  {
    assert order[..i + 1][..i] == order[..i];
  }

  // ---------------------------------------------------------------- the repair itself

  class Ledger {
    var validations: map<Key, Validation>
    var attempts: map<Key, Attempt>
    var runs: map<Key, Run>
    var revisions: map<Key, Revision>
    var candidates: map<Key, Candidate>

    function Contents(): Tables
      reads this
    {
      Tables(validations, attempts, runs, revisions, candidates)
    }

    constructor (t: Tables)
      ensures Contents() == t
    {
      validations, attempts, runs := t.validations, t.attempts, t.runs;
      revisions, candidates := t.revisions, t.candidates;
    }

    /** `order` is the fetched list of validations; SQL sorts it by (created_at, id), and the
        contract holds for every listing of the table. */
    method RepairValidationCosts(order: seq<Key>, now: int) returns (counts: Counts)
      requires Enumerates(order, validations.Keys)
      modifies this
      ensures State(Contents(), counts) == Repair(old(Contents()), order, now)
    {
      counts := NO_COUNTS;
      ResetFinality();
      ghost var start := State(Contents(), counts);
      var i := 0;
      assert start == Fold(start, order[..i], now) && start.tables == Reset(old(Contents()));
      hide Step, Fold, Reset, ResetRow;
      while i < |order|
        invariant 0 <= i <= |order|
        invariant State(Contents(), counts) == Fold(start, order[..i], now)
      {
        FoldNext(start, order, i, now);
        counts := RepairOne(order[i], counts, now);
        i := i + 1;
      }
      assert order[..i] == order;
    }

    method ResetFinality()
      modifies this
      ensures Contents() == Reset(old(Contents()))
    {
      validations := map v | v in validations :: ResetRow(validations[v]);
    }

    method RepairOne(v: Key, counts0: Counts, now: int) returns (counts: Counts)
      requires v in validations
      modifies this
      ensures State(Contents(), counts) == Step(old(State(Contents(), counts0)), v, now)
    {
      counts := counts0;
      ghost var t := Contents();
      var validation := validations[v];
      if validation.attemptId.None? {
        hide ProvenNoStart, FinalCost, CancelledWithoutStart, LatestRun;
        if validation.status == "failed" || validation.status == "cancelled" {
          validations := validations[v := validation.(cost := Some(0.0), costFinal := true,
                                                      countsTowardCanary := false)];
          counts := counts.(unstarted := counts.unstarted + 1);
        } else {
          validations := validations[v := validation.(cost := None, costFinal := false,
                                                      countsTowardCanary := false)];
        }
        return;
      }
      var a := validation.attemptId.value;
      var attempt := if a in attempts then Some(attempts[a]) else None;
      var latest := LatestRun(runs, a);
      if latest.Some? && RejectedFree(runs[latest.value]) {
        counts := RecordNoStart(v, latest.value, counts0, now);
        return;
      }
      assert !Classify(t, v).NoStart?;
      hide ProvenNoStart, LatestRun;
      var finalCost: Option<real> := None;
      if latest.Some? && runs[latest.value].chargeFinal == 1 && runs[latest.value].chargeActual.Some? {
        finalCost := runs[latest.value].chargeActual;
      } else if attempt.Some? && attempt.value.costFinal == 1 && attempt.value.actualCost.Some? {
        finalCost := attempt.value.actualCost;
      }
      if finalCost.Some? {
        validations := validations[v := validation.(cost := finalCost, costFinal := true,
                                                    countsTowardCanary := true)];
        counts := counts.(reconciled := counts.reconciled + 1);
      } else {
        var noStartedRun := latest.None?
          || (runs[latest.value].remoteRunId.None? && runs[latest.value].datasetId.None?);
        var cancelled := attempt.Some? && attempt.value.status == "cancelled" && noStartedRun;
        validations := validations[v := validation.(
          cost := if cancelled then Some(0.0) else None,
          costFinal := cancelled, countsTowardCanary := !cancelled)];
      }
    }

    /** The branch of a proven no-start: frees the run and the attempt, settles the validation and
        stops its revision while that is still static_valid or probationary. */
    method RecordNoStart(v: Key, r: Key, counts0: Counts, now: int) returns (counts: Counts)
      requires v in validations && Classify(Contents(), v) == NoStart(r)
      modifies this
      ensures State(Contents(), counts) == Step(old(State(Contents(), counts0)), v, now)
    {
      counts := counts0;
      var validation := validations[v];
      var a := validation.attemptId.value;
      assert r in runs && (validation.revisionId in revisions && Stoppable(revisions[validation.revisionId])
                           <==> Stops(Contents(), v));
      hide Classify;
      runs := runs[r := runs[r].(chargeReserved := 0.0, chargeActual := Some(0.0),
                                 chargeFinal := 1, updatedAt := now)];
      if a in attempts && attempts[a].status != "running" {
        attempts := attempts[a := attempts[a].(
          status := "cancelled", actualCost := Some(0.0), costFinal := 1,
          lastErrorCode := Some(attempts[a].lastErrorCode.GetOr(UNAVAILABLE)), updatedAt := now)];
      }
      assert attempts == StepAttempts(old(Contents()), v, now);
      validations := validations[v := validation.(
        cost := Some(0.0), costFinal := true, countsTowardCanary := false,
        semanticOutcome := Some(UNAVAILABLE))];
      if validation.revisionId in revisions && Stoppable(revisions[validation.revisionId]) {
        var revision := revisions[validation.revisionId];
        var next := if revision.lifecycle == "static_valid" then "rejected" else "quarantined";
        revisions := revisions[validation.revisionId := revision.(lifecycle := next)];
        if revision.candidateId in candidates {
          candidates := candidates[revision.candidateId := candidates[revision.candidateId].(
            state := "disabled", lastErrorCode := Some(UNAVAILABLE), updatedAt := now)];
        }
        counts := counts.(stopped := counts.stopped + 1);
      }
      counts := counts.(noStart := counts.noStart + 1);
    }
  }
}
