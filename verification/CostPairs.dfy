/** Exactly when swapping two neighbouring validations of the v17 repair changes its result. */
module CostPairs {
  import opened Common
  import opened CostLedger
  import opened CostOrder

  /** The two validations share an attempt whose latest run proves that nothing started, and
      stamping that run makes a run the latest one that does not prove it. */
  ghost predicate Clash(t: Tables, v: Key, w: Key, now: int)
    requires v in t.validations && w in t.validations
  {
    var a := t.validations[v].attemptId;
    && a.Some? && t.validations[w].attemptId == a
    && ProvenNoStart(t.runs, a.value)
    && !ProvenNoStart(Touch(t.runs, LatestRun(t.runs, a.value).value, now), a.value)
  }

  ghost predicate Shared(t: Tables, v: Key, w: Key)
    requires v in t.validations && w in t.validations
  {
    t.validations[v].attemptId.Some? && t.validations[w].attemptId == t.validations[v].attemptId
  }

  lemma OtherAttemptLatest(runs: map<Key, Run>, r: Key, now: int, b: Key)
    requires r in runs && runs[r].logicalRunId != Some(b)
    ensures LatestRun(Touch(runs, r, now), b) == LatestRun(runs, b)
    ensures ProvenNoStart(Touch(runs, r, now), b) == ProvenNoStart(runs, b)
  {
    var touched := Touch(runs, r, now);
    var latest := LatestRun(runs, b);
    if latest.Some? {
      forall s | s in touched && touched[s].logicalRunId == Some(b)
        ensures NotAfter(touched, s, latest.value)
      {
        assert NotAfter(runs, s, latest.value);
      }
      assert IsLatest(touched, b, latest.value);
    } else {
      assert !HasRun(touched, b);
    }
  }

  /** How validation `w` reads after the step on `v`. */
  lemma SecondReads(s: State, v: Key, w: Key, now: int)
    requires v in s.tables.validations && w in s.tables.validations && v != w
    ensures var t := s.tables; var u := Step(s, v, now).tables;
      && (!Classify(t, v).NoStart? || !Shared(t, v, w) ==> Classify(u, w) == Classify(t, w))
      && (Classify(t, v).NoStart? && Shared(t, v, w) ==>
            var a := t.validations[v].attemptId.value;
            && (Classify(u, w).NoStart? <==> !Clash(t, v, w, now))
            && (Classify(u, w).NoStart? ==>
                  Classify(u, w).run == LatestRun(Touch(t.runs, LatestRun(t.runs, a).value, now), a).value))
  {
    var t := s.tables;
    var u := Step(s, v, now).tables;
    assert u.validations[w] == t.validations[w];
    if Classify(t, v).NoStart? {
      var a := t.validations[v].attemptId.value;
      var r := LatestRun(t.runs, a).value;
      assert u.runs == Touch(t.runs, r, now);
      if t.validations[w].attemptId.Some? && !Shared(t, v, w) {
        OtherAttemptLatest(t.runs, r, now, t.validations[w].attemptId.value);
        var b := t.validations[w].attemptId.value;
        assert b in t.attempts ==> u.attempts[b] == t.attempts[b];
        assert LatestRun(u.runs, b).Some? ==> u.runs[LatestRun(u.runs, b).value] == t.runs[LatestRun(u.runs, b).value];
        hide LatestRun, ProvenNoStart, StepRuns, StepAttempts, StepRevisions, StepCandidates;
      }
    } else {
      assert u.runs == t.runs && u.attempts == t.attempts;
      hide LatestRun, ProvenNoStart, StepRuns, StepAttempts, StepRevisions, StepCandidates;
    }
  }

  ghost function Both(s: State, v: Key, w: Key, now: int): State
    requires v in s.tables.validations && w in s.tables.validations
  {
    Step(Step(s, v, now), w, now)
  }

  lemma ClashIsSymmetric(t: Tables, v: Key, w: Key, now: int)
    requires v in t.validations && w in t.validations
    ensures Clash(t, v, w, now) == Clash(t, w, v, now) && Shared(t, v, w) == Shared(t, w, v)
  {
  }

  lemma RunsCommute(s: State, v: Key, w: Key, now: int)
    requires v in s.tables.validations && w in s.tables.validations && v != w
    requires !Clash(s.tables, v, w, now)
    ensures Both(s, v, w, now).tables.runs == Both(s, w, v, now).tables.runs
  {
    SecondReads(s, v, w, now);
    SecondReads(s, w, v, now);
    ClashIsSymmetric(s.tables, v, w, now);
    var t := s.tables;
    assert Shared(t, v, w) ==> (Classify(t, v).NoStart? <==> Classify(t, w).NoStart?);
    assert Classify(t, v).NoStart? && Classify(t, w).NoStart? && !Shared(t, v, w)
      ==> Classify(t, v).run != Classify(t, w).run;
    assert Shared(t, v, w) && Classify(t, v).NoStart? ==> Classify(t, v) == Classify(t, w);
    hide Classify, Clash, Shared, StepAttempts, StepRevisions, StepCandidates, StepCounts;
  }

  /** Which of the tables a pair of steps writes, when the second reads as in the original ledger. */
  lemma NoStartsAgree(s: State, v: Key, w: Key, now: int)
    requires v in s.tables.validations && w in s.tables.validations && v != w
    requires !Clash(s.tables, v, w, now)
    ensures var u := Step(s, v, now).tables;
      && (Classify(u, w).NoStart? <==> Classify(s.tables, w).NoStart?)
      && (!Classify(u, w).NoStart? ==> Classify(u, w) == Classify(s.tables, w))
  {
    SecondReads(s, v, w, now);
    assert Shared(s.tables, v, w) ==> (Classify(s.tables, v).NoStart? <==> Classify(s.tables, w).NoStart?);
  }

  lemma AttemptsCommute(s: State, v: Key, w: Key, now: int)
    requires v in s.tables.validations && w in s.tables.validations && v != w
    requires !Clash(s.tables, v, w, now)
    ensures Both(s, v, w, now).tables.attempts == Both(s, w, v, now).tables.attempts
  {
    NoStartsAgree(s, v, w, now);
    ClashIsSymmetric(s.tables, v, w, now);
    NoStartsAgree(s, w, v, now);
    var a := s.tables.attempts;
    var v1, w1 := Step(s, v, now).tables, Step(s, w, now).tables;
    assert v1.validations[w].attemptId == s.tables.validations[w].attemptId;
    assert w1.validations[v].attemptId == s.tables.validations[v].attemptId;
    assert Classify(s.tables, v).NoStart? ==> s.tables.validations[v].attemptId.Some?;
    assert Classify(s.tables, w).NoStart? ==> s.tables.validations[w].attemptId.Some?;
    hide Classify, Clash, StepRuns, StepRevisions, StepCandidates, StepCounts;
  }

  lemma StopsAgree(s: State, v: Key, w: Key, now: int)
    requires v in s.tables.validations && w in s.tables.validations && v != w
    requires !Clash(s.tables, v, w, now)
    ensures var t := s.tables;
      Stops(Step(s, v, now).tables, w) <==>
        Stops(t, w) && !(Stops(t, v) && t.validations[v].revisionId == t.validations[w].revisionId)
  {
    NoStartsAgree(s, v, w, now);
    hide Classify, Clash, StepRuns, StepAttempts, StepCandidates, StepCounts;
  }

  lemma RevisionsCommute(s: State, v: Key, w: Key, now: int)
    requires v in s.tables.validations && w in s.tables.validations && v != w
    requires !Clash(s.tables, v, w, now)
    ensures Both(s, v, w, now).tables.revisions == Both(s, w, v, now).tables.revisions
    ensures Both(s, v, w, now).counts.stopped == Both(s, w, v, now).counts.stopped
  {
    StopsBothWays(s, v, w, now);
    hide Stops, Clash, StepRuns, StepAttempts, StepCandidates, Classify;
  }

  lemma CandidatesCommute(s: State, v: Key, w: Key, now: int)
    requires v in s.tables.validations && w in s.tables.validations && v != w
    requires !Clash(s.tables, v, w, now)
    ensures Both(s, v, w, now).tables.candidates == Both(s, w, v, now).tables.candidates
  {
    StopsBothWays(s, v, w, now);
    var t := s.tables;
    var v1, w1 := Step(s, v, now).tables, Step(s, w, now).tables;
    SameCandidates(t, v);
    SameCandidates(t, w);
    hide Stops, Clash, StepRuns, StepAttempts, StepRevisions, StepCounts, Classify;
  }

  lemma SameCandidates(t: Tables, v: Key)
    requires v in t.validations
    ensures StepRevisions(t, v).Keys == t.revisions.Keys
    ensures forall q :: q in t.revisions ==> StepRevisions(t, v)[q].candidateId == t.revisions[q].candidateId
  {
    hide Classify;
  }

  /** Of two validations that both stop the same revision, only the first stops it. */
  lemma StopsBothWays(s: State, v: Key, w: Key, now: int)
    requires v in s.tables.validations && w in s.tables.validations && v != w
    requires !Clash(s.tables, v, w, now)
    ensures var t := s.tables;
      var same := t.validations[v].revisionId == t.validations[w].revisionId;
      var v1, w1 := Step(s, v, now).tables, Step(s, w, now).tables;
      && (Stops(v1, w) <==> Stops(t, w) && !(Stops(t, v) && same))
      && (Stops(w1, v) <==> Stops(t, v) && !(Stops(t, w) && same))
      && v1.validations[w] == t.validations[w] && w1.validations[v] == t.validations[v]
      && (Stops(t, v) ==> t.validations[v].revisionId in t.revisions)
      && (Stops(t, w) ==> t.validations[w].revisionId in t.revisions)
      && (Stops(w1, v) ==> t.validations[v].revisionId in w1.revisions)
      && (Stops(v1, w) ==> t.validations[w].revisionId in v1.revisions)
  {
    StopsAgree(s, v, w, now);
    ClashIsSymmetric(s.tables, v, w, now);
    StopsAgree(s, w, v, now);
    hide Classify, Clash;
  }

  lemma RowsCommute(s: State, v: Key, w: Key, now: int)
    requires v in s.tables.validations && w in s.tables.validations && v != w
    requires !Clash(s.tables, v, w, now)
    ensures Both(s, v, w, now).tables.validations == Both(s, w, v, now).tables.validations
    ensures Both(s, v, w, now).counts.noStart == Both(s, w, v, now).counts.noStart
    ensures Both(s, v, w, now).counts.reconciled == Both(s, w, v, now).counts.reconciled
    ensures Both(s, v, w, now).counts.unstarted == Both(s, w, v, now).counts.unstarted
  {
    NoStartsAgree(s, v, w, now);
    ClashIsSymmetric(s.tables, v, w, now);
    NoStartsAgree(s, w, v, now);
    hide Classify, Clash, StepRuns, StepAttempts, StepRevisions, StepCandidates, Stops;
  }

  lemma ClashShows(s: State, v: Key, w: Key, now: int)
    requires v in s.tables.validations && w in s.tables.validations && v != w
    requires Clash(s.tables, v, w, now)
    ensures !Both(s, v, w, now).tables.validations[v].countsTowardCanary
    ensures Both(s, w, v, now).tables.validations[v].countsTowardCanary
  {
    ClashIsSymmetric(s.tables, v, w, now);
    SecondReads(s, w, v, now);
    var t := s.tables;
    var u := Step(s, w, now).tables;
    var a := t.validations[v].attemptId.value;
    assert Classify(t, v).NoStart? && Classify(t, w).NoStart?;
    assert a in t.attempts ==> u.attempts[a] == FreeAttempt(t.attempts[a], now);
    assert u.validations[v] == t.validations[v];
    assert !Classify(u, v).NoStart?;
    if FinalCost(u, a).None? {
      assert a in t.attempts ==> u.attempts[a].status == "running";
      assert !CancelledWithoutStart(u, a);
    }
    hide ProvenNoStart, LatestRun, StepRuns, StepAttempts, StepRevisions, StepCandidates, FinalCost, CancelledWithoutStart;
  }

  /** Swapping two neighbouring validations changes the result exactly when they clash. */
  lemma SwapMattersIffClash(s: State, v: Key, w: Key, now: int)
    requires v in s.tables.validations && w in s.tables.validations && v != w
    ensures Both(s, v, w, now) == Both(s, w, v, now) <==> !Clash(s.tables, v, w, now)
  {
    if Clash(s.tables, v, w, now) {
      ClashShows(s, v, w, now);
    } else {
      RunsCommute(s, v, w, now);
      AttemptsCommute(s, v, w, now);
      RevisionsCommute(s, v, w, now);
      CandidatesCommute(s, v, w, now);
      RowsCommute(s, v, w, now);
      hide *;
    }
  }

  /** Two validations of one attempt, whose latest run is a free rejected start stamped after
      `now == 10` and whose earlier run is charged and stamped after `now` as well. */
  ghost function LateLedger(): Tables {
    var row := Validation(0, Some(7), "failed", None, None, false, true, None);
    Tables(map[0 := row, 1 := row], map[],
           map[1 := Run(Some(7), "start_rejected", None, None, 0.0, None, 0, 20),
               2 := Run(Some(7), "succeeded", Some("r"), Some("d"), 0.0, Some(3.0), 1, 15)],
           map[], map[])
  }

  lemma LateLedgerClashes()
    ensures Clash(LateLedger(), 0, 1, 10)
  {
    var t := LateLedger();
    assert IsLatest(t.runs, 7, 1);
    LatestIsUnique(t.runs, 7, 1);
    var touched := Touch(t.runs, 1, 10);
    assert IsLatest(touched, 7, 2);
    LatestIsUnique(touched, 7, 2);
  }

  /** Runs stamped after `now` break order independence: in LateLedger the validation that comes
      first is written off and the other one is charged. */
  lemma LateStampBreaksOrder()
    ensures Enumerates([0, 1], LateLedger().validations.Keys)
    ensures Enumerates([1, 0], LateLedger().validations.Keys)
    ensures Repair(LateLedger(), [0, 1], 10) != Repair(LateLedger(), [1, 0], 10)
  {
    var s := State(LateLedger(), NO_COUNTS);
    LateLedgerRows();
    LateLedgerClashes();
    hide Clash, LateLedger, Step, Both, Reset, Fold;
    SwapMattersIffClash(s, 0, 1, 10);
    FoldTwo(s, 0, 1, 10);
    FoldTwo(s, 1, 0, 10);
  }

  lemma LateLedgerRows()
    ensures LateLedger().validations.Keys == {0, 1} && Reset(LateLedger()) == LateLedger()
  {
  }

  lemma FoldTwo(s: State, v: Key, w: Key, now: int)
    requires v in s.tables.validations && w in s.tables.validations
    ensures Fold(s, [v, w], now) == Both(s, v, w, now)
  {
    hide Step;
    assert [v, w][..1] == [v] && [v][..0] == [];
    assert Fold(s, [v], now) == Step(Fold(s, [], now), v, now);
  }
}
