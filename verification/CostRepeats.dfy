/** Exactly when a second v17 repair repeats what the first one found. */
module CostRepeats {
  import opened Common
  import opened CostLedger
  import opened CostOrder
  import opened CostPairs
  import opened CostListings

  /** For every attempt that `m > 0` validations share and whose latest run proves that nothing started: after
      the `m` stamps of a first repair and all but one of a second one, the run in the lead still proves it. */
  ghost predicate Repeats(t: Tables, now: int, later: int) {
    forall a | ProvenNoStart(t.runs, a) && Sharing(t, a) != {} ::
      ProvenNoStart(StampedAgain(t, a, now, later, |Sharing(t, a)| - 1), a)
  }

  /** The runs after all rounds of the attempt in a first repair and `times` of its rounds in a second. */
  ghost function StampedAgain(t: Tables, a: Key, now: int, later: int, times: nat): map<Key, Run> {
    Stamps(Stamps(t.runs, a, now, |Sharing(t, a)|), a, later, times)
  }

  // ---------------------------------------------------------------- stamps

  lemma {:induction false} ProvenEarlier(runs: map<Key, Run>, a: Key, now: int, j: nat, k: nat)
    requires j <= k && ProvenNoStart(Stamps(runs, a, now, k), a)
    ensures ProvenNoStart(Stamps(runs, a, now, j), a)
  {
    hide ProvenNoStart;
    if j < k {
      ProvenEarlier(runs, a, now, j, k - 1);
    }
  }

  lemma {:induction false} SameRunsStamps(a: Key, x: map<Key, Run>, y: map<Key, Run>, now: int, times: nat)
    requires SameRuns(a, x, y)
    ensures SameRuns(a, Stamps(x, a, now, times), Stamps(y, a, now, times))
  {
    hide SameRuns, Stamp;
    if times > 0 {
      SameRunsStamps(a, x, y, now, times - 1);
      SameRunsStamp(a, Stamps(x, a, now, times - 1), Stamps(y, a, now, times - 1), now);
    }
  }

  // ---------------------------------------------------------------- rounds

  lemma PrefixListed(s: State, order: seq<Key>, i: nat)
    requires Listed(s, order) && i <= |order|
    ensures Listed(s, order[..i])
    ensures i < |order| ==> order[i] in s.tables.validations && order[i] !in order[..i]
  {
    assert forall j | 0 <= j < i :: order[..i][j] == order[j];
    assert i < |order| ==> order[i] in order;
  }

  /** The attempt has a round number `k` in the listing. */
  lemma {:induction false} RoundAt(t: Tables, order: seq<Key>, a: Key, k: nat) returns (i: nat)
    requires (forall v | v in order :: v in t.validations) && k < Rounds(t, order, a)
    ensures i < |order| && order[i] in Sharing(t, a)
    ensures (forall v | v in order[..i] :: v in t.validations) && Rounds(t, order[..i], a) == k
  {
    hide Sharing;
    var n := |order| - 1;
    if k < Rounds(t, order[..n], a) {
      i := RoundAt(t, order[..n], a, k);
      assert order[..n][..i] == order[..i];
    } else {
      i := n;
    }
  }

  lemma AllRounds(s: State, order: seq<Key>, a: Key)
    requires Enumerates(order, s.tables.validations.Keys)
    ensures Listed(s, order) && Rounds(s.tables, order, a) == |Sharing(s.tables, a)|
  {
    RoundsAreShared(s.tables, order, a);
    assert Members(order) * Sharing(s.tables, a) == Sharing(s.tables, a);
  }

  /** A round of the attempt has fewer rounds before it than the attempt has validations. */
  lemma RoundsBefore(s: State, order: seq<Key>, i: nat, a: Key)
    requires Listed(s, order) && i < |order| && order[i] in Sharing(s.tables, a)
    ensures (forall v | v in order[..i] :: v in s.tables.validations)
    ensures Rounds(s.tables, order[..i], a) < |Sharing(s.tables, a)|
  {
    PrefixListed(s, order, i);
    hide Sharing;
    var done := Members(order[..i]) * Sharing(s.tables, a);
    RoundsAreShared(s.tables, order[..i], a);
    Subset(done + {order[i]}, Sharing(s.tables, a));
    assert |done + {order[i]}| == |done| + 1;
  }

  lemma StepSettles(s: State, v: Key, now: int)
    requires v in s.tables.validations
    ensures Step(s, v, now).tables.validations[v] == Settle(Classify(s.tables, v), s.tables.validations[v])
  {
    hide Classify, Settle, StepAttempts, StepRuns, StepRevisions, StepCandidates, StepCounts;
  }

  lemma LastRow(s: State, order: seq<Key>, now: int)
    requires Listed(s, order) && order != []
    ensures var n := |order| - 1;
      && Listed(s, order[..n]) && order[n] in s.tables.validations
      && Fold(s, order, now).tables.validations[order[n]]
         == Settle(Classify(Fold(s, order[..n], now).tables, order[n]), s.tables.validations[order[n]])
      && (forall w | w in s.tables.validations && w != order[n] ::
            Fold(s, order, now).tables.validations[w] == Fold(s, order[..n], now).tables.validations[w])
  {
    hide Step, Classify, Settle;
    var n := |order| - 1;
    PrefixListed(s, order, n);
    FoldKeepsRows(s, order[..n], now);
    StepSettles(Fold(s, order[..n], now), order[n], now);
    StepStamps(Fold(s, order[..n], now), order[n], now);
  }

  /** The row of a validation is settled as its own round reads it. */
  lemma {:induction false} RowAfter(s: State, order: seq<Key>, i: nat, now: int)
    requires Listed(s, order) && i < |order|
    ensures Listed(s, order[..i]) && order[i] in s.tables.validations
    ensures Fold(s, order, now).tables.validations[order[i]]
      == Settle(Classify(Fold(s, order[..i], now).tables, order[i]), s.tables.validations[order[i]])
    ensures Fold(s, order[..i], now).tables.validations[order[i]] == s.tables.validations[order[i]]
  {
    hide Step, Classify, Settle, Fold, Listed;
    var n := |order| - 1;
    PrefixListed(s, order, i);
    PrefixListed(s, order, n);
    KeepsRow(s, order[..i], now, order[i]);
    LastRow(s, order, now);
    if i < n {
      RowAfter(s, order[..n], i, now);
      assert order[..n][..i] == order[..i];
      assert order[i] in order[..n];
    }
  }

  lemma KeepsRow(s: State, order: seq<Key>, now: int, v: Key)
    requires Listed(s, order) && v in s.tables.validations && v !in order
    ensures Fold(s, order, now).tables.validations[v] == s.tables.validations[v]
  {
    hide Step;
    FoldKeepsRows(s, order, now);
  }

  // ---------------------------------------------------------------- attempts along the loop

  /** Once freed, an attempt is running or has a final amount. */
  ghost predicate Freed(t: Tables, a: Key) {
    a in t.attempts ==> t.attempts[a].status == "running" || (t.attempts[a].costFinal == 1 && t.attempts[a].actualCost.Some?)
  }

  ghost predicate SameAttempt(t: Tables, u: Tables, a: Key) {
    (a in t.attempts <==> a in u.attempts) && (a in t.attempts ==> u.attempts[a] == t.attempts[a])
  }

  ghost predicate Frees(t: Tables, v: Key, a: Key)
    requires v in t.validations
  {
    t.validations[v].attemptId == Some(a) && ProvenNoStart(t.runs, a)
  }

  lemma StepFreed(s: State, v: Key, now: int, a: Key)
    requires v in s.tables.validations
    ensures var t, u := s.tables, Step(s, v, now).tables;
      && (Freed(t, a) || Frees(t, v, a) ==> Freed(u, a))
      && (!Frees(t, v, a) ==> SameAttempt(t, u, a))
  {
    hide LatestRun, FinalCost, CancelledWithoutStart, ProvenNoStart, StepRuns, StepRevisions, StepCandidates, StepCounts;
  }

  /** Whether the ledger proves that nothing started can be read off the stamped original runs. */
  lemma ProofAfter(s: State, order: seq<Key>, now: int, a: Key)
    requires forall v | v in order :: v in s.tables.validations
    ensures ProvenNoStart(Fold(s, order, now).tables.runs, a)
      == ProvenNoStart(Stamps(s.tables.runs, a, now, Rounds(s.tables, order, a)), a)
  {
    hide Step, Fold, Stamp, SameRuns, ProvenNoStart, Rounds;
    FoldStamps(s, order, now, a);
    SameRunsSameLatest(a, Fold(s, order, now).tables.runs, Stamps(s.tables.runs, a, now, Rounds(s.tables, order, a)));
  }

  /** A proven attempt is freed in its first round and stays so. */
  lemma {:induction false} FoldFrees(s: State, order: seq<Key>, now: int, a: Key)
    requires forall v | v in order :: v in s.tables.validations
    requires Freed(s.tables, a) || (ProvenNoStart(s.tables.runs, a) && Rounds(s.tables, order, a) > 0)
    ensures Freed(Fold(s, order, now).tables, a)
  {
    hide Step, Freed, ProvenNoStart;
    if order != [] {
      var n := |order| - 1;
      var before := Fold(s, order[..n], now);
      FoldKeepsRows(s, order[..n], now);
      StepFreed(before, order[n], now, a);
      if Freed(s.tables, a) || Rounds(s.tables, order[..n], a) > 0 {
        FoldFrees(s, order[..n], now, a);
      } else {
        ProofAfter(s, order[..n], now, a);
      }
    }
  }

  /** The rounds leave the attempt alone that the original ledger does not prove unstarted. */
  lemma {:induction false} FoldKeepsAttempt(s: State, order: seq<Key>, now: int, a: Key)
    requires (forall v | v in order :: v in s.tables.validations) && !ProvenNoStart(s.tables.runs, a)
    ensures SameAttempt(s.tables, Fold(s, order, now).tables, a)
    ensures SameRuns(a, Fold(s, order, now).tables.runs, s.tables.runs)
  {
    hide Step, ProvenNoStart, SameRuns;
    FoldStamps(s, order, now, a);
    UnprovenStays(s.tables.runs, a, now, Rounds(s.tables, order, a));
    if order != [] {
      var n := |order| - 1;
      var before := Fold(s, order[..n], now);
      FoldKeepsAttempt(s, order[..n], now, a);
      SameRunsSameLatest(a, before.tables.runs, s.tables.runs);
      StepFreed(before, order[n], now, a);
    }
  }

  // ---------------------------------------------------------------- what a round reads

  lemma ReadTheSame(t: Tables, u: Tables, v: Key)
    requires v in t.validations && v in u.validations
    requires t.validations[v].attemptId == u.validations[v].attemptId && t.validations[v].status == u.validations[v].status
    requires t.validations[v].attemptId.Some? ==>
      SameRuns(t.validations[v].attemptId.value, t.runs, u.runs) && SameAttempt(t, u, t.validations[v].attemptId.value)
    ensures Classify(t, v) == Classify(u, v)
  {
    if t.validations[v].attemptId.Some? {
      var a := t.validations[v].attemptId.value;
      SameRunsSameLatest(a, t.runs, u.runs);
      var r := LatestRun(t.runs, a);
      assert r.Some? ==> t.runs[r.value] == u.runs[r.value];
      hide LatestRun, ProvenNoStart;
    }
  }

  /** A validation of an attempt that is freed and no longer proven unstarted counts. */
  lemma FreedCounts(t: Tables, v: Key, a: Key, row: Validation)
    requires v in t.validations && t.validations[v].attemptId == Some(a)
    requires Freed(t, a) && !ProvenNoStart(t.runs, a)
    ensures Settle(Classify(t, v), row).countsTowardCanary
  {
    hide LatestRun, ProvenNoStart;
  }

  ghost predicate Alike(o: Outcome, p: Outcome) {
    o == p || (o.NoStart? && p.NoStart?)
  }

  /** What the first repair leaves in the row is what the same outcome settles again. */
  lemma SettledAgain(o: Outcome, p: Outcome, row: Validation)
    requires Alike(o, p)
    ensures Settle(p, ResetRow(Settle(o, ResetRow(row)))) == Settle(o, ResetRow(row))
  {
  }

  // ---------------------------------------------------------------- two repairs

  ghost predicate TwoRuns(t: Tables, x: seq<Key>, y: seq<Key>) {
    Enumerates(x, t.validations.Keys) && Enumerates(y, t.validations.Keys)
  }

  ghost function Start(t: Tables): State {
    State(Reset(t), NO_COUNTS)
  }

  lemma Starts(t: Tables, a: Key)
    ensures Reset(t).validations.Keys == t.validations.Keys && Reset(t).runs == t.runs && Reset(t).attempts == t.attempts
    ensures Sharing(Reset(t), a) == Sharing(t, a)
    ensures forall v | v in t.validations :: Reset(t).validations[v] == ResetRow(t.validations[v])
  {
    assert forall v | v in t.validations :: Reset(t).validations[v].attemptId == t.validations[v].attemptId;
  }

  /** After the first repair every validation has its attempt, and the runs of an attempt are stamped once
      for each of its validations. */
  lemma FirstRun(t: Tables, x: seq<Key>, now: int, a: Key)
    requires Enumerates(x, t.validations.Keys)
    ensures var u := Repair(t, x, now).tables;
      && u.validations.Keys == t.validations.Keys && Sharing(u, a) == Sharing(t, a)
      && SameRuns(a, u.runs, Stamps(t.runs, a, now, |Sharing(t, a)|))
  {
    hide Step, SameRuns, Stamp, Stamps;
    Starts(t, a);
    AllRounds(Start(t), x, a);
    FoldKeepsRows(Start(t), x, now);
    FoldStamps(Start(t), x, now, a);
  }

  /** What the round at position `i` of a repair reads. */
  ghost function ReadAt(t: Tables, x: seq<Key>, i: nat, now: int): Outcome
    requires Enumerates(x, t.validations.Keys) && i < |x|
  {
    PrefixListed(Start(t), x, i);
    Classify(Fold(Start(t), x[..i], now).tables, x[i])
  }

  lemma RowRepaired(t: Tables, x: seq<Key>, i: nat, now: int)
    requires Enumerates(x, t.validations.Keys) && i < |x|
    ensures x[i] in t.validations
    ensures Repair(t, x, now).tables.validations[x[i]] == Settle(ReadAt(t, x, i, now), ResetRow(t.validations[x[i]]))
  {
    hide Classify, Settle, Fold;
    Starts(t, 0);
    RowAfter(Start(t), x, i, now);
  }

  /** A round reads no start exactly when the stamps so far leave the proof. */
  lemma ReadsNoStart(t: Tables, x: seq<Key>, i: nat, now: int, a: Key)
    requires Enumerates(x, t.validations.Keys) && i < |x| && x[i] in Sharing(t, a)
    ensures Listed(Start(t), x[..i])
    ensures ReadAt(t, x, i, now).NoStart?
      <==> ProvenNoStart(Stamps(t.runs, a, now, Rounds(Reset(t), x[..i], a)), a)
  {
    hide Fold, ProvenNoStart, Stamps;
    Starts(t, a);
    PrefixListed(Start(t), x, i);
    RowAfter(Start(t), x, i, now);
    ProofAfter(Start(t), x[..i], now, a);
  }

  /** The first repair leaves what a row without a proven attempt reads, during the loop and after it. */
  lemma ReadsUnproven(t: Tables, x: seq<Key>, i: nat, now: int)
    requires Enumerates(x, t.validations.Keys) && i < |x|
    requires forall a | x[i] in Sharing(t, a) :: !ProvenNoStart(t.runs, a)
    ensures x[i] in t.validations && ReadAt(t, x, i, now) == Classify(t, x[i])
    ensures var u := Repair(t, x, now).tables;
      x[i] in u.validations && Classify(u, x[i]) == Classify(t, x[i])
  {
    hide Classify, Fold, ProvenNoStart, SameRuns, SameAttempt, Settle;
    Starts(t, 0);
    PrefixListed(Start(t), x, i);
    RowAfter(Start(t), x, i, now);
    FoldKeepsRows(Start(t), x, now);
    var v := x[i];
    var mid, u := Fold(Start(t), x[..i], now).tables, Repair(t, x, now).tables;
    if t.validations[v].attemptId.Some? {
      var a := t.validations[v].attemptId.value;
      FoldKeepsAttempt(Start(t), x[..i], now, a);
      FoldKeepsAttempt(Start(t), x, now, a);
      Kept(a, Reset(t), t, mid);
      Kept(a, Reset(t), t, u);
    }
    RowRepaired(t, x, i, now);
    SettleKeeps(ReadAt(t, x, i, now), ResetRow(t.validations[v]));
    ReadTheSame(mid, t, v);
    ReadTheSame(u, t, v);
  }

  lemma Kept(a: Key, t0: Tables, t: Tables, u: Tables)
    requires t0.runs == t.runs && t0.attempts == t.attempts && SameAttempt(t0, u, a) && SameRuns(a, u.runs, t0.runs)
    ensures SameAttempt(u, t, a) && SameRuns(a, u.runs, t.runs)
  {
  }

  lemma SettleKeeps(o: Outcome, row: Validation)
    ensures Settle(o, row).status == row.status && Settle(o, row).attemptId == row.attemptId
  {
  }

  // ---------------------------------------------------------------- the second repair

  /** The rounds of a proven attempt in the second repair. */
  lemma SecondReadsNoStart(t: Tables, x: seq<Key>, now: int, y: seq<Key>, j: nat, later: int, a: Key)
    requires TwoRuns(t, x, y) && j < |y| && y[j] in Sharing(t, a)
    ensures var u := Repair(t, x, now).tables;
      && u.validations.Keys == t.validations.Keys && Listed(Start(u), y[..j])
      && (ReadAt(u, y, j, later).NoStart?
          <==> ProvenNoStart(StampedAgain(t, a, now, later, Rounds(Reset(u), y[..j], a)), a))
  {
    hide SameRuns, Stamps, ProvenNoStart, Repair, Rounds, ReadAt;
    FirstRun(t, x, now, a);
    var u := Repair(t, x, now).tables;
    ReadsNoStart(u, y, j, later, a);
    var k := Rounds(Reset(u), y[..j], a);
    var stamped := Stamps(t.runs, a, now, |Sharing(t, a)|);
    SameRunsStamps(a, u.runs, stamped, later, k);
    SameRunsSameLatest(a, Stamps(u.runs, a, later, k), Stamps(stamped, a, later, k));
  }

  lemma ProvenTwice(t: Tables, x: seq<Key>, i: nat, now: int, y: seq<Key>, j: nat, later: int, a: Key)
    requires TwoRuns(t, x, y) && i < |x| && j < |y| && x[i] == y[j] && x[i] in Sharing(t, a)
    requires ProvenNoStart(StampedAgain(t, a, now, later, |Sharing(t, a)| - 1), a)
    ensures var u := Repair(t, x, now).tables;
      && u.validations.Keys == t.validations.Keys
      && ReadAt(t, x, i, now).NoStart? && ReadAt(u, y, j, later).NoStart?
  {
    hide Repair, ProvenNoStart, Stamps, ReadAt, Rounds, Fold, Sharing, SameRuns, Distinct;
    FirstRun(t, x, now, a);
    var u := Repair(t, x, now).tables;
    Starts(t, a);
    Starts(u, a);
    AllRounds(Start(t), x, a);
    AllRounds(Start(u), y, a);
    RoundsBefore(Start(t), x, i, a);
    RoundsBefore(Start(u), y, j, a);
    ReadsNoStart(t, x, i, now, a);
    SecondReadsNoStart(t, x, now, y, j, later, a);
    var m := |Sharing(t, a)|;
    var stamped := Stamps(t.runs, a, now, m);
    ProvenEarlier(stamped, a, later, Rounds(Reset(u), y[..j], a), m - 1);
    StampsNone(stamped, a, later);
    ProvenEarlier(stamped, a, later, 0, m - 1);
    ProvenEarlier(t.runs, a, now, Rounds(Reset(t), x[..i], a), m);
  }

  lemma UnprovenTwice(t: Tables, x: seq<Key>, i: nat, now: int, y: seq<Key>, j: nat, later: int)
    requires TwoRuns(t, x, y) && i < |x| && j < |y| && x[i] == y[j]
    requires forall a | x[i] in Sharing(t, a) :: !ProvenNoStart(t.runs, a)
    ensures var u := Repair(t, x, now).tables;
      u.validations.Keys == t.validations.Keys && ReadAt(t, x, i, now) == ReadAt(u, y, j, later)
  {
    hide Repair, ProvenNoStart, ReadAt, Classify, Sharing, SameRuns, Fold;
    FirstRun(t, x, now, 0);
    var u := Repair(t, x, now).tables;
    ReadsUnproven(t, x, i, now);
    forall a | y[j] in Sharing(u, a) ensures !ProvenNoStart(u.runs, a) {
      FirstRun(t, x, now, a);
      StillUnproven(t, x, now, a);
    }
    ReadsUnproven(u, y, j, later);
  }

  /** Under the condition both rounds of a validation read alike. */
  lemma ReadsAlikeTwice(t: Tables, x: seq<Key>, i: nat, now: int, y: seq<Key>, j: nat, later: int)
    requires TwoRuns(t, x, y) && i < |x| && j < |y| && x[i] == y[j]
    requires Repeats(t, now, later)
    ensures var u := Repair(t, x, now).tables;
      u.validations.Keys == t.validations.Keys && Alike(ReadAt(t, x, i, now), ReadAt(u, y, j, later))
  {
    hide Repair, ProvenNoStart, StampedAgain, ReadAt, Classify, Fold, Sharing;
    if a :| x[i] in Sharing(t, a) && ProvenNoStart(t.runs, a) {
      ProvenTwice(t, x, i, now, y, j, later, a);
    } else {
      UnprovenTwice(t, x, i, now, y, j, later);
    }
  }

  lemma StampsNone(runs: map<Key, Run>, a: Key, now: int)
    ensures Stamps(runs, a, now, 0) == runs
  {
  }

  lemma StillUnproven(t: Tables, x: seq<Key>, now: int, a: Key)
    requires Enumerates(x, t.validations.Keys) && !ProvenNoStart(t.runs, a)
    ensures !ProvenNoStart(Repair(t, x, now).tables.runs, a)
  {
    hide Repair, ProvenNoStart, SameRuns;
    FirstRun(t, x, now, a);
    UnprovenStays(t.runs, a, now, |Sharing(t, a)|);
    SameRunsSameLatest(a, Repair(t, x, now).tables.runs, t.runs);
  }

  /** Some validation whose rounds read differently, for an attempt that does not keep its proof. */
  lemma LostValidation(t: Tables, x: seq<Key>, now: int, y: seq<Key>, later: int, a: Key) returns (i: nat, j: nat)
    requires TwoRuns(t, x, y) && ProvenNoStart(t.runs, a) && Sharing(t, a) != {}
    requires !ProvenNoStart(StampedAgain(t, a, now, later, |Sharing(t, a)| - 1), a)
    ensures i < |x| && j < |y| && x[i] == y[j] && x[i] in Sharing(t, a)
    ensures var u := Repair(t, x, now).tables;
      && u.validations.Keys == t.validations.Keys
      && ReadAt(t, x, i, now).NoStart? && !ReadAt(u, y, j, later).NoStart?
  {
    hide Repair, ProvenNoStart, Stamps, ReadAt, Rounds;
    FirstRun(t, x, now, a);
    var u := Repair(t, x, now).tables;
    var m := |Sharing(t, a)|;
    Starts(t, a);
    Starts(u, a);
    AllRounds(Start(t), x, a);
    AllRounds(Start(u), y, a);
    StampsNone(t.runs, a, now);
    if ProvenNoStart(Stamps(t.runs, a, now, m - 1), a) {
      j := RoundAt(Reset(u), y, a, m - 1);
      i :| 0 <= i < |x| && x[i] == y[j];
      RoundsBefore(Start(t), x, i, a);
      ProvenEarlier(t.runs, a, now, Rounds(Reset(t), x[..i], a), m - 1);
    } else {
      i := RoundAt(Reset(t), x, a, 0);
      j :| 0 <= j < |y| && y[j] == x[i];
      PrefixListed(Start(u), y, j);
      StaysLost(t, a, now, later, Rounds(Reset(u), y[..j], a));
    }
    ReadsNoStart(t, x, i, now, a);
    SecondReadsNoStart(t, x, now, y, j, later, a);
  }

  lemma StaysLost(t: Tables, a: Key, now: int, later: int, times: nat)
    requires Sharing(t, a) != {} && !ProvenNoStart(Stamps(t.runs, a, now, |Sharing(t, a)| - 1), a)
    ensures !ProvenNoStart(StampedAgain(t, a, now, later, times), a)
  {
    hide ProvenNoStart;
    var stamped := Stamps(t.runs, a, now, |Sharing(t, a)|);
    assert stamped == Stamps(t.runs, a, now, |Sharing(t, a)| - 1);
    UnprovenStays(stamped, a, later, times);
  }

  /** The attempt is freed in the first repair, if one of its rounds finds the proof. */
  lemma FreedInFirst(t: Tables, x: seq<Key>, i: nat, now: int, a: Key)
    requires Enumerates(x, t.validations.Keys) && i < |x| && x[i] in Sharing(t, a) && ProvenNoStart(t.runs, a)
    ensures Freed(Reset(Repair(t, x, now).tables), a)
  {
    hide Fold, ProvenNoStart, Freed, Step, Rounds, Distinct, Sharing;
    Starts(t, a);
    AllRounds(Start(t), x, a);
    RoundsBefore(Start(t), x, i, a);
    FoldFrees(Start(t), x, now, a);
    SameFreed(Repair(t, x, now).tables, Reset(Repair(t, x, now).tables), a);
  }

  /** A round that no longer finds the proof of a freed attempt makes its validation count. */
  lemma LostCounts(u: Tables, y: seq<Key>, j: nat, later: int, a: Key)
    requires Enumerates(y, u.validations.Keys) && j < |y| && y[j] in Sharing(u, a) && Freed(Reset(u), a)
    requires !ReadAt(u, y, j, later).NoStart?
    ensures Repair(u, y, later).tables.validations[y[j]].countsTowardCanary
  {
    hide Fold, ProvenNoStart, Classify, Freed, Step, Settle;
    Starts(u, a);
    PrefixListed(Start(u), y, j);
    RowRepaired(u, y, j, later);
    RowAfter(Start(u), y, j, later);
    FoldFrees(Start(u), y[..j], later, a);
    var mid := Fold(Start(u), y[..j], later).tables;
    NotProven(mid, y[j], a);
    FreedCounts(mid, y[j], a, ResetRow(u.validations[y[j]]));
  }

  /** The row was written off, and counts after the second repair. */
  lemma LostShows(t: Tables, x: seq<Key>, i: nat, now: int, y: seq<Key>, j: nat, later: int, a: Key)
    requires TwoRuns(t, x, y) && i < |x| && j < |y| && x[i] == y[j] && x[i] in Sharing(t, a)
    requires ProvenNoStart(t.runs, a)
    requires var u := Repair(t, x, now).tables;
      && u.validations.Keys == t.validations.Keys
      && ReadAt(t, x, i, now).NoStart? && !ReadAt(u, y, j, later).NoStart?
    ensures var u := Repair(t, x, now).tables;
      && !u.validations[x[i]].countsTowardCanary
      && Repair(u, y, later).tables.validations[x[i]].countsTowardCanary
  {
    var u := Repair(t, x, now).tables;
    hide Repair, Reset, ReadAt, ProvenNoStart, Freed, Sharing, SameRuns, ResetRow;
    RowRepaired(t, x, i, now);
    FirstRun(t, x, now, a);
    FreedInFirst(t, x, i, now, a);
    LostCounts(u, y, j, later, a);
  }

  lemma SameFreed(t: Tables, u: Tables, a: Key)
    requires t.attempts == u.attempts
    ensures Freed(t, a) == Freed(u, a)
  {
  }

  lemma NotProven(t: Tables, v: Key, a: Key)
    requires v in t.validations && t.validations[v].attemptId == Some(a)
    ensures Classify(t, v).NoStart? <==> ProvenNoStart(t.runs, a)
  {
  }

  lemma RepeatedRow(t: Tables, x: seq<Key>, now: int, y: seq<Key>, later: int, v: Key)
    requires TwoRuns(t, x, y) && v in t.validations && Repeats(t, now, later)
    ensures var u := Repair(t, x, now).tables;
      && u.validations.Keys == t.validations.Keys
      && v in Repair(u, y, later).tables.validations
      && Repair(u, y, later).tables.validations[v] == u.validations[v]
  {
    hide Repair, ReadAt, Repeats, Settle, ResetRow, Alike;
    var i :| 0 <= i < |x| && x[i] == v;
    var j :| 0 <= j < |y| && y[j] == v;
    ReadsAlikeTwice(t, x, i, now, y, j, later);
    RowRepaired(t, x, i, now);
    RowRepaired(Repair(t, x, now).tables, y, j, later);
    FirstRun(Repair(t, x, now).tables, y, later, 0);
    SettledAgain(ReadAt(t, x, i, now), ReadAt(Repair(t, x, now).tables, y, j, later), t.validations[v]);
  }

  /** A second repair, at any time and in any order, leaves the validations as the first one did if and only if
      every attempt that the ledger proves unstarted keeps its proof until the last round of the second repair. */
  lemma SecondRepairRepeatsIff(t: Tables, x: seq<Key>, now: int, y: seq<Key>, later: int)
    requires Enumerates(x, t.validations.Keys) && Enumerates(y, t.validations.Keys)
    ensures var u := Repair(t, x, now).tables;
      && u.validations.Keys == t.validations.Keys
      && (Repair(u, y, later).tables.validations == u.validations <==> Repeats(t, now, later))
  {
    hide Repair, ReadAt, ProvenNoStart, StampedAgain, SameRuns;
    FirstRun(t, x, now, 0);
    var u := Repair(t, x, now).tables;
    FirstRun(u, y, later, 0);
    if Repeats(t, now, later) {
      forall v | v in t.validations ensures Repair(u, y, later).tables.validations[v] == u.validations[v] {
        RepeatedRow(t, x, now, y, later, v);
      }
    } else {
      var a :| ProvenNoStart(t.runs, a) && Sharing(t, a) != {}
        && !ProvenNoStart(StampedAgain(t, a, now, later, |Sharing(t, a)| - 1), a);
      hide Repeats, Sharing;
      var i, j := LostValidation(t, x, now, y, later, a);
      LostShows(t, x, i, now, y, j, later, a);
    }
  }

  // ---------------------------------------------------------------- the condition and the earlier ones

  /** What repeats does not depend on the order either. */
  lemma RepeatsIsLasting(t: Tables, now: int, later: int)
    requires Repeats(t, now, later)
    ensures Lasting(t, now)
  {
    forall a, j: nat | ProvenNoStart(t.runs, a) && j < |Sharing(t, a)|
      ensures ProvenNoStart(Stamps(t.runs, a, now, j), a)
    {
      var m := |Sharing(t, a)|;
      var stamped := Stamps(t.runs, a, now, m);
      hide ProvenNoStart, Stamp, Stamps, Sharing;
      assert Sharing(t, a) != {};
      StampsNone(stamped, a, later);
      ProvenEarlier(stamped, a, later, 0, m - 1);
      ProvenEarlier(t.runs, a, now, j, m);
    }
  }

  /** Where every freed run stays the latest of its attempt, a later second repair repeats the first. */
  lemma StableRepeats(t: Tables, now: int, later: int)
    requires Stable(t, now) && now <= later
    ensures Repeats(t, now, later)
  {
    forall a | ProvenNoStart(t.runs, a) && Sharing(t, a) != {}
      ensures ProvenNoStart(StampedAgain(t, a, now, later, |Sharing(t, a)| - 1), a)
    {
      StableStamps(t.runs, a, now, |Sharing(t, a)|);
      TouchedStaysLatest(t.runs, a, now, later);
      hide Stable, StaysLatest, ProvenNoStart, Stamp;
      StableStamps(Stamps(t.runs, a, now, |Sharing(t, a)|), a, later, |Sharing(t, a)| - 1);
    }
  }

  lemma TouchedStaysLatest(runs: map<Key, Run>, a: Key, now: int, later: int)
    requires ProvenNoStart(runs, a) && StaysLatest(runs, a, now) && now <= later
    ensures StaysLatest(Touch(runs, LatestRun(runs, a).value, now), a, later)
  {
    var r := LatestRun(runs, a).value;
    var touched := Touch(runs, r, now);
    LatestIsUnique(touched, a, r);
    forall s | s in touched && touched[s].logicalRunId == Some(a) ensures NotAfter(Touch(touched, r, later), s, r) {
      assert NotAfter(touched, s, r);
    }
  }

  /** The runs of LateLedger under a single validation. */
  ghost function LateRow(): Tables {
    LateLedger().(validations := map[0 := LateLedger().validations[0]])
  }

  /** The order cannot matter for a single validation, and yet a second repair charges what the first wrote off. */
  lemma LateRowChanges()
    ensures Enumerates([0], LateRow().validations.Keys) && Lasting(LateRow(), 10) && !Repeats(LateRow(), 10, 10)
  {
    var t := LateRow();
    LateLedgerClashes();
    assert t.runs == LateLedger().runs && LateLedger().validations[0].attemptId == Some(7);
    LateRowShares();
    hide ProvenNoStart, LateRow, LateLedger, LatestRun;
    assert |Sharing(t, 7)| == 1;
    assert Stamps(t.runs, 7, 10, 1) == Stamp(Stamps(t.runs, 7, 10, 0), 7, 10);
    assert !ProvenNoStart(StampedAgain(t, 7, 10, 10, 0), 7);
  }

  lemma LateRowShares()
    ensures LateRow().validations.Keys == {0} && Sharing(LateRow(), 7) == {0}
    ensures forall a | a != 7 :: Sharing(LateRow(), a) == {}
  {
  }
}
