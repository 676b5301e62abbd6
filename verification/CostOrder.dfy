/** The v17 cost repair does not depend on the order of the validations, and repeating it is harmless. */
module CostOrder {
  import opened Common
  import opened CostLedger

  // ------------------------------------------------------------ when a stamped run stays latest

  function Touch(runs: map<Key, Run>, r: Key, now: int): map<Key, Run>
    requires r in runs
  {
    runs[r := FreeRun(runs[r], now)]
  }

  /** Stamping the run the repair frees does not make another run of the attempt the latest one. */
  ghost predicate StaysLatest(runs: map<Key, Run>, a: Key, now: int) {
    var r := LatestRun(runs, a);
    r.Some? && IsLatest(Touch(runs, r.value, now), a, r.value)
  }

  ghost predicate Stable(t: Tables, now: int) {
    forall a :: ProvenNoStart(t.runs, a) ==> StaysLatest(t.runs, a, now)
  }

  lemma LatestIsUnique(runs: map<Key, Run>, a: Key, r: Key)
    requires IsLatest(runs, a, r)
    ensures LatestRun(runs, a) == Some(r)
  {
  }

  /** A clock that is not behind the ledger makes every freed run stay the latest. */
  lemma ClockAheadIsStable(t: Tables, now: int)
    requires forall r :: r in t.runs ==> t.runs[r].updatedAt <= now
    ensures Stable(t, now)
  {
  }

  // ------------------------------------------------------------ the reference result

  ghost predicate AttemptHit(t: Tables, done: set<Key>, a: Key) {
    ProvenNoStart(t.runs, a)
    && exists v :: v in done && v in t.validations && t.validations[v].attemptId == Some(a)
  }

  ghost predicate RunHit(t: Tables, done: set<Key>, r: Key)
    requires r in t.runs
  {
    var a := t.runs[r].logicalRunId;
    a.Some? && LatestRun(t.runs, a.value) == Some(r) && AttemptHit(t, done, a.value)
  }

  ghost predicate RevisionHit(t: Tables, done: set<Key>, q: Key) {
    exists v :: v in done && v in t.validations && Stops(t, v) && t.validations[v].revisionId == q
  }

  ghost predicate CandidateHit(t: Tables, done: set<Key>, c: Key) {
    exists q :: RevisionHit(t, done, q) && q in t.revisions && t.revisions[q].candidateId == c
  }

  /** The tables after the validations in `done`, read off the original tables row by row. */
  ghost function Reference(t: Tables, done: set<Key>, now: int): Tables {
    Tables(
      map v | v in t.validations :: if v in done then Settle(Classify(t, v), t.validations[v]) else t.validations[v],
      map a | a in t.attempts :: if AttemptHit(t, done, a) then FreeAttempt(t.attempts[a], now) else t.attempts[a],
      map r | r in t.runs :: if RunHit(t, done, r) then FreeRun(t.runs[r], now) else t.runs[r],
      map q | q in t.revisions :: if RevisionHit(t, done, q) then StopRevision(t.revisions[q]) else t.revisions[q],
      map c | c in t.candidates :: if CandidateHit(t, done, c) then DisableCandidate(t.candidates[c], now)
                                   else t.candidates[c])
  }

  ghost function NoStarts(t: Tables, done: set<Key>): set<Key> {
    set v | v in done && v in t.validations && Classify(t, v).NoStart?
  }

  ghost function FinalCosts(t: Tables, done: set<Key>): set<Key> {
    set v | v in done && v in t.validations && Classify(t, v).Reconciled?
  }

  ghost function Unstarteds(t: Tables, done: set<Key>): set<Key> {
    set v | v in done && v in t.validations && Classify(t, v).Unstarted?
  }

  ghost function StoppedRevisions(t: Tables, done: set<Key>): set<Key> {
    set q | q in t.revisions && RevisionHit(t, done, q)
  }

  ghost function ReferenceCounts(t: Tables, done: set<Key>): Counts {
    Counts(|NoStarts(t, done)|, |FinalCosts(t, done)|, |Unstarteds(t, done)|, |StoppedRevisions(t, done)|)
  }

  // ------------------------------------------------------------ one step

  lemma LatestUnchanged(t: Tables, done: set<Key>, now: int, a: Key)
    requires Stable(t, now)
    ensures LatestRun(Reference(t, done, now).runs, a) == LatestRun(t.runs, a)
    ensures ProvenNoStart(Reference(t, done, now).runs, a) == ProvenNoStart(t.runs, a)
  {
    var u := Reference(t, done, now);
    assert u.runs.Keys == t.runs.Keys;
    var latest := LatestRun(t.runs, a);
    if latest.None? {
      assert !HasRun(u.runs, a);
    } else {
      var r := latest.value;
      if AttemptHit(t, done, a) {
        var touched := Touch(t.runs, r, now);
        assert StaysLatest(t.runs, a, now);
        forall s | s in u.runs && u.runs[s].logicalRunId == Some(a) ensures NotAfter(u.runs, s, r) {
          assert NotAfter(touched, s, r);
        }
      } else {
        forall s | s in u.runs && u.runs[s].logicalRunId == Some(a) ensures NotAfter(u.runs, s, r) {
          assert NotAfter(t.runs, s, r);
        }
      }
      assert IsLatest(u.runs, a, r);
      LatestIsUnique(u.runs, a, r);
    }
  }

  lemma ReadsAsBefore(t: Tables, done: set<Key>, now: int, v: Key)
    requires Stable(t, now)
    requires v in t.validations && v !in done
    ensures Classify(Reference(t, done, now), v) == Classify(t, v)
    ensures Stops(Reference(t, done, now), v)
      <==> Stops(t, v) && !RevisionHit(t, done, t.validations[v].revisionId)
  {
    var u := Reference(t, done, now);
    if t.validations[v].attemptId.Some? {
      LatestUnchanged(t, done, now, t.validations[v].attemptId.value);
    }
  }

  lemma StepRunsReference(t: Tables, done: set<Key>, now: int, v: Key)
    requires Stable(t, now)
    requires v in t.validations && v !in done
    ensures StepRuns(Reference(t, done, now), v, now) == Reference(t, done + {v}, now).runs
  {
    ReadsAsBefore(t, done, now, v);
    var u, w := Reference(t, done, now), Reference(t, done + {v}, now);
    forall r | r in t.runs ensures StepRuns(u, v, now)[r] == w.runs[r] {
      HitsGrow(t, done, v, t.runs[r].logicalRunId.GetOr(0));
    }
  }

  lemma HitsGrow(t: Tables, done: set<Key>, v: Key, a: Key)
    requires v in t.validations
    ensures AttemptHit(t, done + {v}, a) <==>
      AttemptHit(t, done, a) || (t.validations[v].attemptId == Some(a) && ProvenNoStart(t.runs, a))
  {
  }

  lemma StepAttemptsReference(t: Tables, done: set<Key>, now: int, v: Key)
    requires Stable(t, now)
    requires v in t.validations && v !in done
    ensures StepAttempts(Reference(t, done, now), v, now) == Reference(t, done + {v}, now).attempts
  {
    ReadsAsBefore(t, done, now, v);
    var u, w := Reference(t, done, now), Reference(t, done + {v}, now);
    forall a | a in t.attempts ensures StepAttempts(u, v, now)[a] == w.attempts[a] {
      HitsGrow(t, done, v, a);
    }
  }

  lemma RevisionHitsGrow(t: Tables, done: set<Key>, v: Key, q: Key)
    requires v in t.validations
    ensures RevisionHit(t, done + {v}, q) <==>
      RevisionHit(t, done, q) || (t.validations[v].revisionId == q && Stops(t, v))
  {
  }

  lemma StepRevisionsReference(t: Tables, done: set<Key>, now: int, v: Key)
    requires Stable(t, now)
    requires v in t.validations && v !in done
    ensures StepRevisions(Reference(t, done, now), v) == Reference(t, done + {v}, now).revisions
  {
    ReadsAsBefore(t, done, now, v);
    var u, w := Reference(t, done, now), Reference(t, done + {v}, now);
    forall q | q in t.revisions ensures StepRevisions(u, v)[q] == w.revisions[q] {
      RevisionHitsGrow(t, done, v, q);
    }
  }

  lemma StepCandidatesReference(t: Tables, done: set<Key>, now: int, v: Key)
    requires Stable(t, now)
    requires v in t.validations && v !in done
    ensures StepCandidates(Reference(t, done, now), v, now) == Reference(t, done + {v}, now).candidates
  {
    ReadsAsBefore(t, done, now, v);
    var u, w := Reference(t, done, now), Reference(t, done + {v}, now);
    var q := t.validations[v].revisionId;
    forall c | c in t.candidates ensures StepCandidates(u, v, now)[c] == w.candidates[c] {
      assert CandidateHit(t, done + {v}, c) <==>
        CandidateHit(t, done, c) || (Stops(t, v) && t.revisions[q].candidateId == c) by {
        forall p { RevisionHitsGrow(t, done, v, p); }
        assert Stops(t, v) ==> RevisionHit(t, done + {v}, q);
      }
      assert Stops(t, v) && RevisionHit(t, done, q) && t.revisions[q].candidateId == c ==> CandidateHit(t, done, c);
    }
  }

  /** One step from the reference tables of `done` reaches the reference tables of `done + {v}`. */
  lemma StepReference(t: Tables, done: set<Key>, now: int, v: Key)
    requires Stable(t, now)
    requires v in t.validations && v !in done
    ensures Step(State(Reference(t, done, now), ReferenceCounts(t, done)), v, now)
      == State(Reference(t, done + {v}, now), ReferenceCounts(t, done + {v}))
  {
    StepRunsReference(t, done, now, v);
    StepAttemptsReference(t, done, now, v);
    StepRevisionsReference(t, done, now, v);
    StepCandidatesReference(t, done, now, v);
    StepCountsReference(t, done, now, v);
    ReadsAsBefore(t, done, now, v);
    hide StepRuns, StepAttempts, StepRevisions, StepCandidates, StepCounts, Classify, Settle;
    var u, w := Reference(t, done, now), Reference(t, done + {v}, now);
    assert u.validations[v := Settle(Classify(u, v), u.validations[v])] == w.validations;
  }

  lemma ClassesGrow(t: Tables, done: set<Key>, v: Key)
    requires v in t.validations && v !in done
    ensures NoStarts(t, done + {v}) == NoStarts(t, done) + if Classify(t, v).NoStart? then {v} else {}
    ensures FinalCosts(t, done + {v}) == FinalCosts(t, done) + if Classify(t, v).Reconciled? then {v} else {}
    ensures Unstarteds(t, done + {v}) == Unstarteds(t, done) + if Classify(t, v).Unstarted? then {v} else {}
    ensures v !in NoStarts(t, done) && v !in FinalCosts(t, done) && v !in Unstarteds(t, done)
  {
    hide Classify;
  }

  lemma StoppedGrow(t: Tables, done: set<Key>, v: Key)
    requires v in t.validations
    ensures StoppedRevisions(t, done + {v}) == StoppedRevisions(t, done)
      + if Stops(t, v) then {t.validations[v].revisionId} else {}
  {
    forall p { RevisionHitsGrow(t, done, v, p); }
  }

  lemma AddOne(s: set<Key>, r: set<Key>, add: bool, x: Key)
    requires r == s + if add then {x} else {}
    ensures |r| == |s| + if add && x !in s then 1 else 0
  {
    assert !add || x in s ==> r == s;
  }

  lemma CountsGrow(t: Tables, done: set<Key>, v: Key)
    requires v in t.validations && v !in done
    ensures var c, d := ReferenceCounts(t, done), ReferenceCounts(t, done + {v});
      && d.noStart == c.noStart + (if Classify(t, v).NoStart? then 1 else 0)
      && d.reconciled == c.reconciled + (if Classify(t, v).Reconciled? then 1 else 0)
      && d.unstarted == c.unstarted + (if Classify(t, v).Unstarted? then 1 else 0)
      && d.stopped == c.stopped
           + (if Stops(t, v) && !RevisionHit(t, done, t.validations[v].revisionId) then 1 else 0)
  {
    ClassesGrow(t, done, v);
    StoppedGrow(t, done, v);
    var q := t.validations[v].revisionId;
    assert Stops(t, v) ==> (q in StoppedRevisions(t, done) <==> RevisionHit(t, done, q));
    hide Classify, Stops, RevisionHit, NoStarts, FinalCosts, Unstarteds, StoppedRevisions;
    AddOne(NoStarts(t, done), NoStarts(t, done + {v}), Classify(t, v).NoStart?, v);
    AddOne(FinalCosts(t, done), FinalCosts(t, done + {v}), Classify(t, v).Reconciled?, v);
    AddOne(Unstarteds(t, done), Unstarteds(t, done + {v}), Classify(t, v).Unstarted?, v);
    AddOne(StoppedRevisions(t, done), StoppedRevisions(t, done + {v}), Stops(t, v), q);
  }

  lemma StepCountsReference(t: Tables, done: set<Key>, now: int, v: Key)
    requires Stable(t, now)
    requires v in t.validations && v !in done
    ensures StepCounts(Reference(t, done, now), ReferenceCounts(t, done), v) == ReferenceCounts(t, done + {v})
  {
    ReadsAsBefore(t, done, now, v);
    CountsGrow(t, done, v);
    var u := Reference(t, done, now);
    assert v in u.validations;
    hide Classify, Stops, RevisionHit, Reference, ReferenceCounts, Stable;
  }

  // ------------------------------------------------------------ the whole loop

  lemma {:induction false} FoldReference(t: Tables, order: seq<Key>, now: int)
    requires Stable(t, now)
    requires forall v :: v in order ==> v in t.validations
    requires forall i, j :: 0 <= i < j < |order| ==> order[i] != order[j]
    ensures Fold(State(t, NO_COUNTS), order, now)
      == State(Reference(t, Members(order), now), ReferenceCounts(t, Members(order)))
  {
    if order == [] {
      NothingDone(t, now);
      assert Members(order) == {};
    } else {
      hide Step, Reference, ReferenceCounts, Stable, Reset;
      var n := |order| - 1;
      FoldReference(t, order[..n], now);
      MembersSnoc(order);
      StepReference(t, Members(order[..n]), now, order[n]);
    }
  }

  lemma MembersSnoc(order: seq<Key>)
    requires order != []
    ensures Members(order) == Members(order[..|order| - 1]) + {order[|order| - 1]}
  {
  }

  lemma NothingDone(t: Tables, now: int)
    ensures State(Reference(t, {}, now), ReferenceCounts(t, {})) == State(t, NO_COUNTS)
  {
    var u := Reference(t, {}, now);
    assert u.validations == t.validations && u.attempts == t.attempts && u.runs == t.runs;
    assert u.revisions == t.revisions && u.candidates == t.candidates;
    assert NoStarts(t, {}) == FinalCosts(t, {}) == Unstarteds(t, {}) == StoppedRevisions(t, {}) == {};
  }

  /** The repair computes the reference tables and counts of all validations. */
  lemma RepairIsReference(t: Tables, order: seq<Key>, now: int)
    requires Stable(t, now)
    requires Enumerates(order, t.validations.Keys)
    ensures Repair(t, order, now)
      == State(Reference(Reset(t), t.validations.Keys, now), ReferenceCounts(Reset(t), t.validations.Keys))
  {
    assert Stable(Reset(t), now);
    FoldReference(Reset(t), order, now);
    assert Members(order) == t.validations.Keys;
  }

  /** Any two processing orders of the validations give the same tables and the same counts. */
  lemma OrderIndependent(t: Tables, order: seq<Key>, other: seq<Key>, now: int)
    requires Stable(t, now)
    requires Enumerates(order, t.validations.Keys) && Enumerates(other, t.validations.Keys)
    ensures Repair(t, order, now) == Repair(t, other, now)
  {
    RepairIsReference(t, order, now);
    RepairIsReference(t, other, now);
  }

  // ------------------------------------------------------------ repeating the repair

  ghost predicate SameButStamps(t: Tables, u: Tables) {
    && u.validations == t.validations
    && u.revisions == t.revisions
    && u.candidates == t.candidates
    && u.runs.Keys == t.runs.Keys
    && (forall r :: r in t.runs ==> u.runs[r] == t.runs[r].(updatedAt := u.runs[r].updatedAt))
    && u.attempts.Keys == t.attempts.Keys
    && (forall a :: a in t.attempts ==> u.attempts[a] == t.attempts[a].(updatedAt := u.attempts[a].updatedAt))
  }

  lemma StableLater(t: Tables, done: set<Key>, now: int, later: int)
    requires Stable(t, now) && now <= later
    ensures Stable(Reset(Reference(t, done, now)), later)
  {
    var u := Reference(t, done, now);
    forall a | ProvenNoStart(u.runs, a) ensures StaysLatest(u.runs, a, later) {
      LatestUnchanged(t, done, now, a);
      var r := LatestRun(t.runs, a).value;
      assert StaysLatest(t.runs, a, now);
      var touched := Touch(u.runs, r, later);
      forall s | s in touched && touched[s].logicalRunId == Some(a) ensures NotAfter(touched, s, r) {
        assert NotAfter(Touch(t.runs, r, now), s, r);
      }
    }
  }

  lemma OpenAttemptUnchanged(t: Tables, done: set<Key>, now: int, a: Key)
    requires Stable(t, now) && !ProvenNoStart(t.runs, a)
    ensures FinalCost(Reference(t, done, now), a) == FinalCost(t, a)
    ensures CancelledWithoutStart(Reference(t, done, now), a) == CancelledWithoutStart(t, a)
  {
    LatestUnchanged(t, done, now, a);
    var u := Reference(t, done, now);
    var r := LatestRun(t.runs, a);
    assert r.Some? ==> u.runs[r.value] == t.runs[r.value];
    assert a in t.attempts ==> u.attempts[a] == t.attempts[a];
  }

  lemma ClassifiedAlike(t: Tables, now: int, v: Key)
    requires Stable(t, now) && v in t.validations
    ensures Classify(Reset(Reference(t, t.validations.Keys, now)), v) == Classify(t, v)
  {
    var u := Reference(t, t.validations.Keys, now);
    var row := t.validations[v];
    assert u.validations[v] == Settle(Classify(t, v), row);
    assert Reset(u).runs == u.runs && Reset(u).attempts == u.attempts;
    if row.attemptId.Some? {
      LatestUnchanged(t, t.validations.Keys, now, row.attemptId.value);
      if !ProvenNoStart(t.runs, row.attemptId.value) {
        OpenAttemptUnchanged(t, t.validations.Keys, now, row.attemptId.value);
        var u0 := Reset(u);
        assert FinalCost(u0, row.attemptId.value) == FinalCost(u, row.attemptId.value);
        hide FinalCost, CancelledWithoutStart, ProvenNoStart, LatestRun;
      }
    }
  }

  /** Every validation is classified after the repair as it was before it, and none stops a revision. */
  lemma ReadsAlike(t: Tables, now: int, v: Key)
    requires Stable(t, now) && v in t.validations
    ensures var u := Reset(Reference(t, t.validations.Keys, now));
      Classify(u, v) == Classify(t, v) && !Stops(u, v)
  {
    ClassifiedAlike(t, now, v);
    var keys := t.validations.Keys;
    var q := t.validations[v].revisionId;
    var u := Reset(Reference(t, keys, now));
    assert Stops(t, v) ==> RevisionHit(t, keys, q);
    hide Classify;
    assert u.revisions.Keys == t.revisions.Keys;
    assert q in t.revisions && Stops(t, v) ==> u.revisions[q] == StopRevision(t.revisions[q]);
    assert u.validations[v].revisionId == q;
  }

  /** Running the repair again, at the same time or later, changes nothing but update stamps, stops
      no further revision, and repeats the other counts. */
  lemma Idempotent(t: Tables, order: seq<Key>, now: int, other: seq<Key>, later: int)
    requires Stable(t, now) && now <= later
    requires Enumerates(order, t.validations.Keys) && Enumerates(other, t.validations.Keys)
    ensures var first := Repair(t, order, now);
      var second := Repair(first.tables, other, later);
      && SameButStamps(first.tables, second.tables)
      && second.counts == first.counts.(stopped := 0)
  {
    RepairIsReference(t, order, now);
    var t0 := Reset(t);
    var u := Reference(t0, t.validations.Keys, now);
    assert Stable(t0, now);
    StableLater(t0, t.validations.Keys, now, later);
    assert Stable(u, later);
    assert u.validations.Keys == t.validations.Keys == t0.validations.Keys;
    hide Reference, ReferenceCounts, SameButStamps, Stable, Fold, Step, Reset;
    RepairIsReference(u, other, later);
    RepeatedTables(t0, now, later);
    RepeatedCounts(t0, now);
  }

  lemma RepeatedTables(t: Tables, now: int, later: int)
    requires Stable(t, now)
    ensures var u := Reference(t, t.validations.Keys, now);
      SameButStamps(u, Reference(Reset(u), t.validations.Keys, later))
  {
    hide Reference, Stable, Reset;
    RepeatedValidations(t, now, later);
    RepeatedStops(t, now, later);
    RepeatedRuns(t, now, later);
    RepeatedAttempts(t, now, later);
  }

  lemma RepeatedCounts(t: Tables, now: int)
    requires Stable(t, now)
    ensures var keys := t.validations.Keys;
      ReferenceCounts(Reset(Reference(t, keys, now)), keys) == ReferenceCounts(t, keys).(stopped := 0)
  {
    var keys := t.validations.Keys;
    var u := Reset(Reference(t, keys, now));
    forall v | v in keys ensures Classify(u, v) == Classify(t, v) && !Stops(u, v) {
      ReadsAlike(t, now, v);
    }
    hide Classify, Stops, Stable;
    assert NoStarts(u, keys) == NoStarts(t, keys);
    assert FinalCosts(u, keys) == FinalCosts(t, keys);
    assert Unstarteds(u, keys) == Unstarteds(t, keys);
    assert StoppedRevisions(u, keys) == {};
  }

  lemma RepeatedValidations(t: Tables, now: int, later: int)
    requires Stable(t, now)
    ensures var u := Reference(t, t.validations.Keys, now);
      Reference(Reset(u), t.validations.Keys, later).validations == u.validations
  {
    var keys := t.validations.Keys;
    var u := Reference(t, keys, now);
    forall v | v in keys
      ensures Settle(Classify(Reset(u), v), Reset(u).validations[v]) == u.validations[v]
    {
      ReadsAlike(t, now, v);
      hide Classify;
    }
  }

  lemma RepeatedStops(t: Tables, now: int, later: int)
    requires Stable(t, now)
    ensures var u := Reference(t, t.validations.Keys, now);
      var w := Reference(Reset(u), t.validations.Keys, later);
      w.revisions == u.revisions && w.candidates == u.candidates
  {
    var keys := t.validations.Keys;
    var u0 := Reset(Reference(t, keys, now));
    forall v | v in keys ensures !Stops(u0, v) {
      ReadsAlike(t, now, v);
    }
    hide Classify, Stops;
    assert forall q :: !RevisionHit(u0, keys, q);
  }

  lemma RepeatedRuns(t: Tables, now: int, later: int)
    requires Stable(t, now)
    ensures var u := Reference(t, t.validations.Keys, now);
      var w := Reference(Reset(u), t.validations.Keys, later);
      && w.runs.Keys == u.runs.Keys
      && (forall r :: r in u.runs ==> w.runs[r] == u.runs[r].(updatedAt := w.runs[r].updatedAt))
  {
    var keys := t.validations.Keys;
    var u := Reference(t, keys, now);
    var w := Reference(Reset(u), keys, later);
    forall r | r in u.runs ensures w.runs[r] == u.runs[r].(updatedAt := w.runs[r].updatedAt) {
      if t.runs[r].logicalRunId.Some? {
        SameHits(t, now, t.runs[r].logicalRunId.value);
      }
    }
  }

  lemma SameHits(t: Tables, now: int, a: Key)
    requires Stable(t, now)
    ensures var u := Reset(Reference(t, t.validations.Keys, now));
      && AttemptHit(u, t.validations.Keys, a) == AttemptHit(t, t.validations.Keys, a)
      && LatestRun(u.runs, a) == LatestRun(t.runs, a)
  {
    LatestUnchanged(t, t.validations.Keys, now, a);
    KeepsAttemptIds(t, t.validations.Keys, now);
    hide Reference, Stable, ProvenNoStart, LatestRun;
  }

  lemma KeepsAttemptIds(t: Tables, done: set<Key>, now: int)
    ensures var u := Reset(Reference(t, done, now));
      && u.validations.Keys == t.validations.Keys
      && u.runs == Reference(t, done, now).runs
      && (forall v :: v in t.validations ==> u.validations[v].attemptId == t.validations[v].attemptId)
  {
    hide Classify;
  }

  lemma RepeatedAttempts(t: Tables, now: int, later: int)
    requires Stable(t, now)
    ensures var u := Reference(t, t.validations.Keys, now);
      var w := Reference(Reset(u), t.validations.Keys, later);
      && w.attempts.Keys == u.attempts.Keys
      && (forall a :: a in u.attempts ==> w.attempts[a] == u.attempts[a].(updatedAt := w.attempts[a].updatedAt))
  {
    var keys := t.validations.Keys;
    var u := Reference(t, keys, now);
    var w := Reference(Reset(u), keys, later);
    forall a | a in u.attempts ensures w.attempts[a] == u.attempts[a].(updatedAt := w.attempts[a].updatedAt) {
      SameHits(t, now, a);
    }
  }

  // ------------------------------------------------------------ what the counters count

  /** Validations no counter covers: still without an attempt, or without a final amount. */
  ghost function Uncounted(t: Tables): set<Key> {
    set v | v in t.validations && (Classify(t, v).Waiting? || Classify(t, v).Open?)
  }

  /** Static-valid or probationary revisions with a validation the ledger proves never started. */
  ghost function RevisionsToStop(t: Tables): set<Key> {
    set v | v in t.validations && Classify(t, v).NoStart? && t.validations[v].revisionId in t.revisions
            && Stoppable(t.revisions[t.validations[v].revisionId]) :: t.validations[v].revisionId
  }

  /** The three validation counters are the sizes of disjoint classes that, with the uncounted
      validations, make up the whole table; the fourth counts each stopped revision once. */
  lemma CountersPartition(t: Tables, order: seq<Key>, now: int)
    requires Stable(t, now)
    requires Enumerates(order, t.validations.Keys)
    ensures var c := Repair(t, order, now).counts;
      && c.noStart + c.reconciled + c.unstarted + |Uncounted(t)| == |t.validations|
      && c.stopped == |RevisionsToStop(t)|
  {
    RepairIsReference(t, order, now);
    ResetReads(t);
    PartitionSizes(Reset(t));
    StopsWhatIsStoppable(Reset(t));
    assert Reset(t).validations.Keys == t.validations.Keys;
    assert |Reset(t).validations| == |t.validations|;
    hide Repair, Reference, Reset, Uncounted, RevisionsToStop, StoppedRevisions, Stable;
  }

  lemma ResetReads(t: Tables)
    ensures Uncounted(Reset(t)) == Uncounted(t)
    ensures RevisionsToStop(Reset(t)) == RevisionsToStop(t)
  {
    var t0 := Reset(t);
    forall v | v in t.validations
      ensures Classify(t0, v) == Classify(t, v) && t0.validations[v].revisionId == t.validations[v].revisionId
    {
      hide LatestRun, ProvenNoStart;
    }
    hide Classify, Reset;
    assert t0.validations.Keys == t.validations.Keys && t0.revisions == t.revisions;
  }

  lemma StopsWhatIsStoppable(t: Tables)
    ensures StoppedRevisions(t, t.validations.Keys) == RevisionsToStop(t)
  {
    hide Classify;
    forall q | q in RevisionsToStop(t) ensures q in StoppedRevisions(t, t.validations.Keys) {
      var v :| v in t.validations && Classify(t, v).NoStart? && t.validations[v].revisionId == q;
      assert Stops(t, v);
    }
  }

  lemma PartitionSizes(t: Tables)
    ensures var keys := t.validations.Keys;
      |NoStarts(t, keys)| + |FinalCosts(t, keys)| + |Unstarteds(t, keys)| + |Uncounted(t)| == |t.validations|
  {
    hide Classify;
    var keys := t.validations.Keys;
    var a := NoStarts(t, keys) + FinalCosts(t, keys);
    assert NoStarts(t, keys) !! FinalCosts(t, keys);
    var b := a + Unstarteds(t, keys);
    assert a !! Unstarteds(t, keys);
    assert b !! Uncounted(t);
    assert b + Uncounted(t) == keys;
  }
}
