/** What the commands of the retirement have checked before they write. */
module RetirementGuards {
  import opened Common
  import opened Retirement
  import opened RetirementProtocol
  import opened RetirementRows

  // ---------------------------------------------------------------- applies

  /** Step `k` starts an apply behind the quiet guard: services stopped, a window of at most a minute, and no
      active worker before it and after it. */
  ghost predicate GuardedStart(w: World, steps: seq<Step>, k: nat, confirmed: Confirmed, now: Time) {
    && k < |steps| && steps[k].ApplyStart? && steps[k].confirmed == confirmed
    && var guard, db := steps[k].guard, Exec(w, steps[..k]).db;
       && guard.now == now && guard.servicesStopped && 0 <= guard.window <= 60
       && !SomeActive(db, guard.now) && !SomeActive(db, guard.later)
  }

  ghost predicate IsApplying(p: Phase, confirmed: Confirmed, now: Time) {
    (p.ApplyGuarded? || p.ApplyChecked? || p.ApplyBackedUp? || p.ApplyCommitted?) && p.confirmed == confirmed && p.now == now
  }

  lemma NextIsGuarded(w: World, step: Step, confirmed: Confirmed, now: Time)
    requires IsApplying(Next(w, step).phase, confirmed, now)
    ensures IsApplying(w.phase, confirmed, now)
      || (step.ApplyStart? && step.confirmed == confirmed && step.guard.now == now && Quiet(w.db, step.guard))
  {
    hide Transact, Summarize, RequireApplySafe, Quiet;
  }

  lemma QuietRows(db: Database, g: Guard)
    ensures Quiet(db, g) <==>
      g.servicesStopped && 0 <= g.window <= 60 && !SomeActive(db, g.now) && !SomeActive(db, g.later)
  {
    ActiveRows(db, g.now);
    ActiveRows(db, g.later);
    hide ActiveWorkers, SomeActive;
  }

  lemma GuardedLater(w: World, steps: seq<Step>, k: nat, confirmed: Confirmed, now: Time)
    requires steps != [] && GuardedStart(w, steps[..|steps| - 1], k, confirmed, now)
    ensures GuardedStart(w, steps, k, confirmed, now)
  {
    hide Exec, SomeActive;
    assert steps[..|steps| - 1][..k] == steps[..k];
  }

  lemma {:induction false} ApplyingIsGuarded(w: World, steps: seq<Step>, confirmed: Confirmed, now: Time)
    requires w.phase.Idle? && IsApplying(Exec(w, steps).phase, confirmed, now)
    ensures exists k :: GuardedStart(w, steps, k, confirmed, now)
  {
    hide Next, GuardedStart;
    if steps != [] {
      var n := |steps| - 1;
      NextIsGuarded(Exec(w, steps[..n]), steps[n], confirmed, now);
      if IsApplying(Exec(w, steps[..n]).phase, confirmed, now) {
        ApplyingIsGuarded(w, steps[..n], confirmed, now);
        var k :| GuardedStart(w, steps[..n], k, confirmed, now);
        GuardedLater(w, steps, k, confirmed, now);
      } else {
        QuietRows(Exec(w, steps[..n]).db, steps[n].guard);
        StartsGuarded(w, steps, n, confirmed, now);
      }
    }
  }

  lemma StartsGuarded(w: World, steps: seq<Step>, k: nat, confirmed: Confirmed, now: Time)
    requires k < |steps| && steps[k].ApplyStart? && steps[k].confirmed == confirmed && steps[k].guard.now == now
    requires Quiet(Exec(w, steps[..k]).db, steps[k].guard)
    ensures GuardedStart(w, steps, k, confirmed, now)
  {
    QuietRows(Exec(w, steps[..k]).db, steps[k].guard);
    hide Exec, Quiet, SomeActive;
  }

  /** Every apply that commits was started behind the quiet guard, with the numbers and the time it commits with. */
  lemma {:induction false} CommitsAreGuarded(w: World, steps: seq<Step>)
    requires w.phase.Idle?
    ensures forall c | c in Exec(w, steps).log :: c in w.log || exists k :: GuardedStart(w, steps, k, c.confirmed, c.now)
  {
    hide Next, GuardedStart, CommitIsClean;
    if steps != [] {
      var n := |steps| - 1;
      CommitsAreGuarded(w, steps[..n]);
      NextCommits(Exec(w, steps[..n]), steps[n]);
      forall c | c in Exec(w, steps).log && c !in w.log ensures exists k :: GuardedStart(w, steps, k, c.confirmed, c.now) {
        if c in Exec(w, steps[..n]).log {
          var k :| GuardedStart(w, steps[..n], k, c.confirmed, c.now);
          GuardedLater(w, steps, k, c.confirmed, c.now);
        } else {
          ApplyingIsGuarded(w, steps[..n], c.confirmed, c.now);
          var k :| GuardedStart(w, steps[..n], k, c.confirmed, c.now);
          GuardedLater(w, steps, k, c.confirmed, c.now);
        }
      }
    }
  }

  /** Step `k` reads the content once more before the backup and finds nothing that stops the apply. */
  ghost predicate GuardedPreview(w: World, steps: seq<Step>, k: nat, confirmed: Confirmed, now: Time) {
    && k < |steps| && steps[k].ApplyPreview?
    && var db := Exec(w, steps[..k]).db;
       !Blocked(db, now) && Confirms(confirmed.jobs, |TriedJobs(db)|) && Confirms(confirmed.sources, |V1Sources(db)|)
  }

  ghost predicate PastPreview(p: Phase, confirmed: Confirmed, now: Time) {
    (p.ApplyBackedUp? || p.ApplyCommitted?) && p.confirmed == confirmed && p.now == now
  }

  ghost predicate PassesPreview(db: Database, confirmed: Confirmed, now: Time) {
    RequireApplySafe(Summarize(db, now), confirmed).None?
  }

  lemma NextIsPreviewed(w: World, step: Step, confirmed: Confirmed, now: Time)
    requires PastPreview(Next(w, step).phase, confirmed, now)
    ensures PastPreview(w.phase, confirmed, now) || (step.ApplyPreview? && PassesPreview(w.db, confirmed, now))
  {
    hide Transact, Summarize, RequireApplySafe, Quiet;
  }

  lemma PassesRows(db: Database, confirmed: Confirmed, now: Time)
    ensures PassesPreview(db, confirmed, now) <==>
      !Blocked(db, now) && Confirms(confirmed.jobs, |TriedJobs(db)|) && Confirms(confirmed.sources, |V1Sources(db)|)
  {
    SummaryRows(db, now);
    hide Summarize, SomeActive, SomeUnknown, SomeUnsettled, SomePending, TriedJobs, V1Sources;
  }

  lemma PreviewedLater(w: World, steps: seq<Step>, k: nat, confirmed: Confirmed, now: Time)
    requires steps != [] && GuardedPreview(w, steps[..|steps| - 1], k, confirmed, now)
    ensures GuardedPreview(w, steps, k, confirmed, now)
  {
    hide Exec, Blocked, Confirms, TriedJobs, V1Sources;
    assert steps[..|steps| - 1][..k] == steps[..k];
  }

  lemma {:induction false} BackedUpIsPreviewed(w: World, steps: seq<Step>, confirmed: Confirmed, now: Time)
    requires w.phase.Idle? && PastPreview(Exec(w, steps).phase, confirmed, now)
    ensures exists k :: GuardedPreview(w, steps, k, confirmed, now)
  {
    hide Next, GuardedPreview, Blocked, PassesPreview;
    if steps != [] {
      var n := |steps| - 1;
      var before := Exec(w, steps[..n]);
      NextIsPreviewed(before, steps[n], confirmed, now);
      if PastPreview(before.phase, confirmed, now) {
        BackedUpIsPreviewed(w, steps[..n], confirmed, now);
        var k :| GuardedPreview(w, steps[..n], k, confirmed, now);
        PreviewedLater(w, steps, k, confirmed, now);
      } else {
        PassesRows(before.db, confirmed, now);
        assert GuardedPreview(w, steps, n, confirmed, now) by {
          PreviewsAt(w, steps, n, confirmed, now);
        }
      }
    }
  }

  lemma PreviewsAt(w: World, steps: seq<Step>, k: nat, confirmed: Confirmed, now: Time)
    requires k < |steps| && steps[k].ApplyPreview? && PassesPreview(Exec(w, steps[..k]).db, confirmed, now)
    ensures GuardedPreview(w, steps, k, confirmed, now)
  {
    PassesRows(Exec(w, steps[..k]).db, confirmed, now);
    hide Exec, PassesPreview, Blocked, TriedJobs, V1Sources;
  }

  /** Every apply that commits was previewed before its backup, with the same numbers and time. */
  lemma {:induction false} CommitsArePreviewed(w: World, steps: seq<Step>)
    requires w.phase.Idle?
    ensures forall c | c in Exec(w, steps).log :: c in w.log || exists k :: GuardedPreview(w, steps, k, c.confirmed, c.now)
  {
    hide Next, GuardedPreview, CommitIsClean;
    if steps != [] {
      var n := |steps| - 1;
      CommitsArePreviewed(w, steps[..n]);
      NextCommits(Exec(w, steps[..n]), steps[n]);
      forall c | c in Exec(w, steps).log && c !in w.log ensures exists k :: GuardedPreview(w, steps, k, c.confirmed, c.now) {
        if c !in Exec(w, steps[..n]).log {
          BackedUpIsPreviewed(w, steps[..n], c.confirmed, c.now);
        }
        var k :| GuardedPreview(w, steps[..n], k, c.confirmed, c.now);
        PreviewedLater(w, steps, k, c.confirmed, c.now);
      }
    }
  }

  // ---------------------------------------------------------------- receipts

  /** Step `k` starts a snapshot behind the quiet guard, on a content of this shape. */
  ghost predicate GuardedSnapshot(w: World, steps: seq<Step>, k: nat, shape: string) {
    && k < |steps| && steps[k].SnapStart?
    && var guard, db := steps[k].guard, Exec(w, steps[..k]).db;
       && db.shape == shape && guard.servicesStopped && 0 <= guard.window <= 60
       && !SomeActive(db, guard.now) && !SomeActive(db, guard.later)
  }

  /** The shape of a snapshot on its way or of a receipt. */
  ghost predicate HoldsShape(w: World, shape: string) {
    || ((w.phase.SnapSummarized? || w.phase.SnapBackedUp?) && w.phase.shape == shape)
    || (w.receipt.Some? && w.receipt.value.shape == shape)
    || (IsPastCheck(w.phase) && w.phase.receipt.shape == shape)
  }

  ghost predicate IsPastCheck(p: Phase) {
    p.ApplyChecked? || p.ApplyBackedUp? || p.ApplyCommitted?
  }

  lemma NextHoldsShape(w: World, step: Step, shape: string)
    requires HoldsShape(Next(w, step), shape)
    ensures HoldsShape(w, shape) || (step.SnapStart? && Quiet(w.db, step.guard) && w.db.shape == shape)
  {
    hide Transact, Summarize, RequireApplySafe, Quiet;
  }

  lemma SnapshotLater(w: World, steps: seq<Step>, k: nat, shape: string)
    requires steps != [] && GuardedSnapshot(w, steps[..|steps| - 1], k, shape)
    ensures GuardedSnapshot(w, steps, k, shape)
  {
    hide Exec, SomeActive;
    assert steps[..|steps| - 1][..k] == steps[..k];
  }

  lemma SnapshotAt(w: World, steps: seq<Step>, k: nat)
    requires k < |steps| && steps[k].SnapStart? && Quiet(Exec(w, steps[..k]).db, steps[k].guard)
    ensures GuardedSnapshot(w, steps, k, Exec(w, steps[..k]).db.shape)
  {
    QuietRows(Exec(w, steps[..k]).db, steps[k].guard);
    hide Exec, Quiet, SomeActive;
  }

  lemma {:induction false} ShapeIsGuarded(w: World, steps: seq<Step>, shape: string)
    requires !HoldsShape(w, shape) && HoldsShape(Exec(w, steps), shape)
    ensures exists k :: GuardedSnapshot(w, steps, k, shape)
  {
    hide Next, GuardedSnapshot, HoldsShape;
    if steps != [] {
      var n := |steps| - 1;
      NextHoldsShape(Exec(w, steps[..n]), steps[n], shape);
      if HoldsShape(Exec(w, steps[..n]), shape) {
        ShapeIsGuarded(w, steps[..n], shape);
        var k :| GuardedSnapshot(w, steps[..n], k, shape);
        SnapshotLater(w, steps, k, shape);
      } else {
        SnapshotAt(w, steps, n);
      }
    }
  }

  /** Every receipt comes from a snapshot that was started behind the quiet guard, on a content of the shape that the
      receipt records. */
  lemma ReceiptsAreGuarded(db: Database, steps: seq<Step>)
    requires Exec(Fresh(db), steps).receipt.Some?
    ensures exists k :: GuardedSnapshot(Fresh(db), steps, k, Exec(Fresh(db), steps).receipt.value.shape)
  {
    hide Exec, GuardedSnapshot;
    ShapeIsGuarded(Fresh(db), steps, Exec(Fresh(db), steps).receipt.value.shape);
  }

  // ---------------------------------------------------------------- crashes

  ghost predicate NoStarts(steps: seq<Step>) {
    forall i | 0 <= i < |steps| :: !steps[i].SnapStart? && !steps[i].ApplyStart?
  }

  lemma NothingRuns(w: World, step: Step)
    requires w.phase.Idle? && !step.SnapStart? && !step.ApplyStart?
    ensures Next(w, step).phase.Idle? && Next(w, step).log == w.log && Next(w, step).receipt == w.receipt
    ensures step.OtherWrite? || Next(w, step).db == w.db
  {
    hide Transact, Summarize, RequireApplySafe, Quiet;
  }

  lemma {:induction false} NothingRunsOn(w: World, steps: seq<Step>)
    requires w.phase.Idle? && NoStarts(steps)
    ensures Exec(w, steps).phase.Idle? && Exec(w, steps).log == w.log && Exec(w, steps).receipt == w.receipt
    ensures (forall i | 0 <= i < |steps| :: !steps[i].OtherWrite?) ==> Exec(w, steps).db == w.db
  {
    hide Next;
    if steps != [] {
      var n := |steps| - 1;
      NothingRunsOn(w, steps[..n]);
      NothingRuns(Exec(w, steps[..n]), steps[n]);
    }
  }

  /** A crash ends the running command wherever it is: until another command starts nothing is committed, no
      receipt is written, and only others change the database. */
  lemma CrashEndsTheCommand(w: World, steps: seq<Step>)
    requires NoStarts(steps)
    ensures var end := Exec(Next(w, Crash), steps);
      && end.log == w.log && end.receipt == w.receipt
      && ((forall i | 0 <= i < |steps| :: !steps[i].OtherWrite?) ==> end.db == w.db)
  {
    CrashIdles(w);
    hide Next, Exec;
    NothingRunsOn(Next(w, Crash), steps);
  }

  lemma CrashIdles(w: World)
    ensures Next(w, Crash) == w.(phase := Idle)
  {
    hide Transact, Summarize, RequireApplySafe, Quiet;
  }
}
