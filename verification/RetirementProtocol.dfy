/** The snapshot, apply and verify commands as a state machine, interleaved with other writers and
    with crashes, and bound together by the receipt file. */
module RetirementProtocol {
  import opened Common
  import opened Retirement
  import opened RetirementFacts

  /** SHA-256 of a database file; taken to be injective, so the digest is the content under a seal. */
  datatype Digest = Sha256(content: Database)

  datatype Receipt = Receipt(databaseSha: Digest, shape: string, postApplySha: Option<Digest>, isolatedJobs: int)

  /** How far the running command has got. */
  datatype Phase =
    | Idle
    | SnapSummarized(shape: string)
    | SnapBackedUp(shape: string)
    | ApplyGuarded(confirmed: Confirmed, now: Time)
    | ApplyChecked(confirmed: Confirmed, now: Time, receipt: Receipt)
    | ApplyBackedUp(confirmed: Confirmed, now: Time, receipt: Receipt)
    | ApplyCommitted(confirmed: Confirmed, now: Time, receipt: Receipt)

  datatype Commit = Commit(before: Database, after: Database, confirmed: Confirmed, now: Time, receipt: Receipt)

  /** The database file, the receipt file, the running command, and the history of committed applies. */
  datatype World = World(db: Database, receipt: Option<Receipt>, phase: Phase, log: seq<Commit>)

  datatype Guard = Guard(servicesStopped: bool, window: int, now: Time, later: Time)

  datatype Step =
    | SnapStart(guard: Guard)
    | SnapBackup
    | SnapWrite
    | ApplyStart(guard: Guard, confirmed: Confirmed)
    | ApplyCheck
    | ApplyPreview
    | ApplyTransact(checks: bool)
    | ApplyFinish
    | Crash
    | OtherWrite(content: Database)

  predicate Quiet(db: Database, g: Guard) {
    && g.servicesStopped
    && 0 <= g.window <= 60
    && ActiveWorkers(db, g.now) == {}
    && ActiveWorkers(db, g.later) == {}
  }

  /** One step; a step the running command is not at leaves the world alone, a refusal ends the command. */
  function Next(w: World, step: Step): World {
    match step
    case SnapStart(g) =>
      if w.phase.Idle? && Quiet(w.db, g) then w.(phase := SnapSummarized(w.db.shape)) else w
    case SnapBackup =>
      if w.phase.SnapSummarized? then w.(phase := SnapBackedUp(w.phase.shape)) else w
    case SnapWrite =>
      if !w.phase.SnapBackedUp? then w
      else if w.receipt.Some? then w.(phase := Idle)
      else w.(phase := Idle, receipt := Some(Receipt(Sha256(w.db), w.phase.shape, None, 0)))
    case ApplyStart(g, c) =>
      if w.phase.Idle? && Quiet(w.db, g) then w.(phase := ApplyGuarded(c, g.now)) else w
    case ApplyCheck =>
      if !w.phase.ApplyGuarded? then w
      else if w.receipt.None? || w.receipt.value.postApplySha.Some?
              || w.receipt.value.databaseSha != Sha256(w.db) then w.(phase := Idle)
      else w.(phase := ApplyChecked(w.phase.confirmed, w.phase.now, w.receipt.value))
    case ApplyPreview =>
      if !w.phase.ApplyChecked? then w
      else if RequireApplySafe(Summarize(w.db, w.phase.now), w.phase.confirmed).Some? then w.(phase := Idle)
      else w.(phase := ApplyBackedUp(w.phase.confirmed, w.phase.now, w.phase.receipt))
    case ApplyTransact(checks) =>
      if !w.phase.ApplyBackedUp? then w
      else
        var t := Transact(w.db, w.phase.confirmed, w.phase.now, checks);
        if t.Err? then w.(phase := Idle)
        else World(t.value.0, w.receipt, ApplyCommitted(w.phase.confirmed, w.phase.now, w.phase.receipt),
                   w.log + [Commit(w.db, t.value.0, w.phase.confirmed, w.phase.now, w.phase.receipt)])
    case ApplyFinish =>
      if !w.phase.ApplyCommitted? then w
      else w.(phase := Idle, receipt := Some(w.phase.receipt.(postApplySha := Some(Sha256(w.db)),
                                                              isolatedJobs := w.phase.confirmed.jobs.GetOr(0))))
    case Crash => w.(phase := Idle)
    case OtherWrite(content) => w.(db := content)
  }

  function Exec(w: World, steps: seq<Step>): World {
    if steps == [] then w else Next(Exec(w, steps[..|steps| - 1]), steps[|steps| - 1])
  }

  function Verify(db: Database, receipt: Option<Receipt>, now: Time): Result<nat, Error> {
    if receipt.None? then Err(NoReceipt)
    else
      var r := receipt.value;
      var s := Summarize(db, now);
      if r.postApplySha.GetOr(r.databaseSha) != Sha256(db) then Err(HashMismatch)
      else if db.shape != r.shape then Err(ShapeMismatch)
      else if !db.sound then Err(CheckFailed)
      else if s.active != 0 || s.unknown != 0 || s.unsettled != 0 || s.nonterminal != 0 then Err(BlockersRemain)
      else if s.isolated != r.isolatedJobs || s.sources != {} || s.shadow != 0 || s.standing != 0 then
        Err(BlockersRemain)
      else Ok(s.isolated)
  }

  // ---------------------------------------------------------------- any interleaving

  /** No standing v1 work and no unsettled v1 fact. */
  ghost predicate Clean(db: Database, now: Time) {
    var s := Summarize(db, now);
    && s.active == 0 && s.unknown == 0 && s.unsettled == 0 && s.nonterminal == 0
    && s.safe == 0 && s.standing == 0 && s.shadow == 0 && s.sources == {}
  }

  ghost predicate CommitIsClean(c: Commit) {
    && Clean(c.after, c.now)
    && c.after == Retire(c.before, c.now).(sound := true)
    && c.confirmed.jobs.GetOr(0) == |IsolatedJobs(c.before.jobs)| == |IsolatedJobs(c.after.jobs)|
    && c.confirmed.sources.GetOr(0) == |LegacySources(c.before)|
  }

  lemma SoundIsNotCounted(db: Database, sound: bool, now: Time)
    ensures Summarize(db.(sound := sound), now) == Summarize(db, now)
  {
    SameFactsSummary(db, db.(sound := sound), now);
    var other := db.(sound := sound);
    assert forall s :: s in db.sources && db.bindings.Some? ==> IsLegacy(other, s) == IsLegacy(db, s);
    assert LegacySources(other) == LegacySources(db);
    hide UnknownCount, UnsettledCount, NonterminalCount, LegacySources;
  }

  lemma TransactIsClean(db: Database, c: Confirmed, now: Time, checks: bool, r: Receipt)
    requires Transact(db, c, now, checks).Ok?
    ensures CommitIsClean(Commit(db, Transact(db, c, now, checks).value.0, c, now, r))
  {
    RetirementLeaves(db, now, now);
    SoundIsNotCounted(Retire(db, now), true, now);
    JobsAfter(db.jobs, now);
    hide Retire, UnknownCount, UnsettledCount, NonterminalCount, LegacySources, RetiredJobs, IsolatedJobs;
    assert Retire(db, now).jobs == RetiredJobs(db.jobs, now) by { RetiresJobs(db, now); }
  }

  lemma RetiresJobs(db: Database, now: Time)
    ensures Retire(db, now).jobs == RetiredJobs(db.jobs, now)
  {
  }

  /** Only a transaction that succeeds adds to the history, and it adds one clean commit. */
  lemma NextCommits(w: World, step: Step)
    ensures Next(w, step).log == w.log
      || (exists c: Commit ::
            && CommitIsClean(c) && Next(w, step).log == w.log + [c]
            && w.phase == ApplyBackedUp(c.confirmed, c.now, c.receipt)
            && c.before == w.db && c.after == Next(w, step).db)
  {
    if step.ApplyTransact? && w.phase.ApplyBackedUp? {
      var p := w.phase;
      var t := Transact(w.db, p.confirmed, p.now, step.checks);
      if t.Ok? {
        TransactIsClean(w.db, p.confirmed, p.now, step.checks, p.receipt);
        var c := Commit(w.db, t.value.0, p.confirmed, p.now, p.receipt);
        hide CommitIsClean, Transact;
        assert Next(w, step).log == w.log + [c];
      }
    }
    hide Transact, Summarize, RequireApplySafe, Quiet;
  }

  /** Whatever other writers do in between, every committed apply leaves a database without standing
      work, unknown starts, unsettled costs and nonterminal facts, and it is the retirement of the
      content the transaction itself read. */
  lemma {:induction false} EveryCommitIsClean(w: World, steps: seq<Step>)
    requires forall c :: c in w.log ==> CommitIsClean(c)
    ensures forall c :: c in Exec(w, steps).log ==> CommitIsClean(c)
  {
    hide CommitIsClean, Next;
    if steps != [] {
      var n := |steps| - 1;
      EveryCommitIsClean(w, steps[..n]);
      NextCommits(Exec(w, steps[..n]), steps[n]);
    }
  }

  /** A command past the receipt check holds the receipt that is on disk, and that one is not applied. */
  ghost predicate HoldsReceipt(w: World) {
    (w.phase.ApplyChecked? || w.phase.ApplyBackedUp? || w.phase.ApplyCommitted?) ==>
      w.receipt == Some(w.phase.receipt) && w.phase.receipt.postApplySha.None?
  }

  lemma NextHoldsReceipt(w: World, step: Step)
    requires HoldsReceipt(w)
    ensures HoldsReceipt(Next(w, step))
    ensures w.receipt.Some? && w.receipt.value.postApplySha.Some? ==>
      Next(w, step).receipt == w.receipt && Next(w, step).log == w.log
      && (step.OtherWrite? || Next(w, step).db == w.db)
  {
    hide Transact, Summarize, RequireApplySafe, Quiet;
  }

  /** Once the digest of the retired database is on the receipt, no step of any command in any later
      run commits an apply or touches the receipt again. */
  lemma {:induction false} AppliedReceiptIsFinal(w: World, steps: seq<Step>)
    requires HoldsReceipt(w)
    requires w.receipt.Some? && w.receipt.value.postApplySha.Some?
    ensures HoldsReceipt(Exec(w, steps))
    ensures Exec(w, steps).receipt == w.receipt && Exec(w, steps).log == w.log
    ensures (forall i :: 0 <= i < |steps| ==> !steps[i].OtherWrite?) ==> Exec(w, steps).db == w.db
  {
    hide Next, HoldsReceipt;
    if steps != [] {
      var n := |steps| - 1;
      AppliedReceiptIsFinal(w, steps[..n]);
      NextHoldsReceipt(Exec(w, steps[..n]), steps[n]);
    }
  }

  // ---------------------------------------------------------------- writers only between commands

  /** Other writers write only while no command is running. */
  ghost predicate Undisturbed(w: World, steps: seq<Step>) {
    forall i :: 0 <= i < |steps| && steps[i].OtherWrite? ==> Exec(w, steps[..i]).phase.Idle?
  }

  ghost predicate ReceiptIsHonest(r: Receipt) {
    r.databaseSha.content.shape == r.shape
  }

  /** What every command knows while nobody else writes. */
  ghost predicate Consistent(w: World) {
    && HoldsReceipt(w)
    && (w.receipt.Some? ==> ReceiptIsHonest(w.receipt.value))
    && (w.phase.SnapSummarized? || w.phase.SnapBackedUp? ==> w.phase.shape == w.db.shape)
    && (w.phase.ApplyChecked? || w.phase.ApplyBackedUp? ==> w.phase.receipt.databaseSha == Sha256(w.db))
    && (w.phase.ApplyCommitted? ==>
          && Clean(w.db, w.phase.now)
          && w.db.sound && w.db.shape == w.phase.receipt.shape
          && w.phase.confirmed.jobs.GetOr(0) == |IsolatedJobs(w.db.jobs)|)
  }

  ghost predicate FromRecordedContent(c: Commit) {
    c.receipt.databaseSha == Sha256(c.before)
  }

  lemma NextConsistent(w: World, step: Step)
    requires Consistent(w)
    requires step.OtherWrite? ==> w.phase.Idle?
    ensures Consistent(Next(w, step))
    ensures forall c :: c in Next(w, step).log ==> c in w.log || FromRecordedContent(c)
  {
    NextHoldsReceipt(w, step);
    if step.ApplyTransact? && w.phase.ApplyBackedUp? {
      var p := w.phase;
      if Transact(w.db, p.confirmed, p.now, step.checks).Ok? {
        TransactIsClean(w.db, p.confirmed, p.now, step.checks, p.receipt);
        assert Transact(w.db, p.confirmed, p.now, step.checks).value.0.shape == w.db.shape;
      }
    }
    hide Transact, Summarize, RequireApplySafe, Quiet, Retire, IsolatedJobs, LegacySources, HoldsReceipt, Clean;
  }

  lemma {:induction false} UndisturbedConsistent(w: World, steps: seq<Step>)
    requires Consistent(w) && Undisturbed(w, steps)
    ensures Consistent(Exec(w, steps))
    ensures forall c :: c in Exec(w, steps).log ==> c in w.log || FromRecordedContent(c)
  {
    hide Next, Consistent, FromRecordedContent;
    if steps != [] {
      var n := |steps| - 1;
      assert forall i :: 0 <= i < n ==> steps[..n][..i] == steps[..i];
      assert forall i :: 0 <= i < n ==> steps[..n][i] == steps[i];
      UndisturbedConsistent(w, steps[..n]);
      NextConsistent(Exec(w, steps[..n]), steps[n]);
    }
  }

  ghost function Fresh(db: Database): World {
    World(db, None, Idle, [])
  }

  // ---------------------------------------------------------------- what a commit starts from

  /** The running apply is past its receipt check and before its transaction. */
  predicate InWindow(p: Phase) {
    p.ApplyChecked? || p.ApplyBackedUp?
  }

  /** Other writers stay out of the window; they may write anywhere else, within commands too. */
  ghost predicate WindowsUndisturbed(w: World, steps: seq<Step>) {
    forall i :: 0 <= i < |steps| && steps[i].OtherWrite? ==> !InWindow(Exec(w, steps[..i]).phase)
  }

  /** In the window the content is the recorded one. */
  ghost predicate AtRecord(w: World) {
    InWindow(w.phase) ==> w.phase.receipt.databaseSha == Sha256(w.db)
  }

  lemma NextAtRecord(w: World, step: Step)
    requires AtRecord(w) && (step.OtherWrite? ==> !InWindow(w.phase))
    ensures AtRecord(Next(w, step))
    ensures forall c :: c in Next(w, step).log ==> c in w.log || FromRecordedContent(c)
  {
    hide Transact, Summarize, RequireApplySafe, Quiet;
  }

  lemma {:induction false} RunAtRecord(w: World, steps: seq<Step>)
    requires AtRecord(w) && WindowsUndisturbed(w, steps)
    ensures AtRecord(Exec(w, steps))
    ensures forall c :: c in Exec(w, steps).log ==> c in w.log || FromRecordedContent(c)
  {
    hide Next, AtRecord, FromRecordedContent;
    if steps != [] {
      var n := |steps| - 1;
      assert forall i :: 0 <= i < n ==> steps[..n][..i] == steps[..i];
      assert forall i :: 0 <= i < n ==> steps[..n][i] == steps[i];
      RunAtRecord(w, steps[..n]);
      NextAtRecord(Exec(w, steps[..n]), steps[n]);
    }
  }

  /** Starting without a receipt, with crashes anywhere and writers everywhere but between a receipt check
      and its transaction, every committed apply starts from exactly the content its receipt recorded. */
  lemma CommitsStartFromTheRecord(db: Database, steps: seq<Step>)
    requires WindowsUndisturbed(Fresh(db), steps)
    ensures forall c :: c in Exec(Fresh(db), steps).log ==> FromRecordedContent(c) && CommitIsClean(c)
  {
    RunAtRecord(Fresh(db), steps);
    EveryCommitIsClean(Fresh(db), steps);
  }

  /** The content that other writers leave: that of the last write among the steps. */
  ghost function Written(steps: seq<Step>, db: Database): Database {
    if steps == [] then db
    else if steps[|steps| - 1].OtherWrite? then steps[|steps| - 1].content
    else Written(steps[..|steps| - 1], db)
  }

  /** Step `k` is the receipt check of the apply that is in the window after `n` steps. */
  ghost predicate CheckedAt(w: World, steps: seq<Step>, k: nat, n: nat)
    requires k < n <= |steps|
  {
    var before, now := Exec(w, steps[..k]), Exec(w, steps[..n]);
    && steps[k].ApplyCheck? && before.phase.ApplyGuarded?
    && (forall i :: k < i <= n ==> InWindow(Exec(w, steps[..i]).phase))
    && now.phase.receipt.databaseSha == Sha256(before.db)
    && now.db == Written(steps[k + 1..n], before.db)
  }

  lemma NextInWindow(w: World, step: Step)
    requires InWindow(Next(w, step).phase)
    ensures InWindow(w.phase) || (step.ApplyCheck? && w.phase.ApplyGuarded?)
    ensures InWindow(w.phase) ==> Next(w, step).phase.receipt == w.phase.receipt
    ensures InWindow(w.phase) ==> Next(w, step).db == if step.OtherWrite? then step.content else w.db
    ensures !InWindow(w.phase) ==> Next(w, step).phase.receipt.databaseSha == Sha256(w.db) && Next(w, step).db == w.db
  {
    hide Transact, Summarize, RequireApplySafe, Quiet;
  }

  /** Whatever is in the window got there by a receipt check. */
  lemma {:induction false} WindowOpened(w: World, steps: seq<Step>, n: nat) returns (k: nat)
    requires !InWindow(w.phase) && n <= |steps| && InWindow(Exec(w, steps[..n]).phase)
    ensures k < n && CheckedAt(w, steps, k, n)
    decreases n
  {
    hide Next, InWindow;
    assert n > 0;
    var m := n - 1;
    assert steps[..n][..m] == steps[..m];
    var before := Exec(w, steps[..m]);
    NextInWindow(before, steps[m]);
    if InWindow(before.phase) {
      k := WindowOpened(w, steps, m);
      assert steps[k + 1..n][..m - k - 1] == steps[k + 1..m];
    } else {
      k := m;
      assert steps[k + 1..n] == [];
    }
  }

  /** An apply that commits starts from its recorded content if and only if the last write of others between
      its receipt check and its transaction, should there be one, restored exactly that content. */
  lemma StartsFromTheRecordIff(w: World, steps: seq<Step>, n: nat) returns (k: nat)
    requires !InWindow(w.phase) && n < |steps|
    requires Exec(w, steps[..n + 1]).log != Exec(w, steps[..n]).log
    ensures k < n && CheckedAt(w, steps, k, n)
    ensures var log, checked := Exec(w, steps[..n + 1]).log, Exec(w, steps[..k]).db;
      && log != [] && log == Exec(w, steps[..n]).log + [log[|log| - 1]]
      && (FromRecordedContent(log[|log| - 1]) <==> Written(steps[k + 1..n], checked) == checked)
  {
    hide Next, CommitIsClean;
    var before := Exec(w, steps[..n]);
    assert steps[..n + 1][..n] == steps[..n];
    NextCommits(before, steps[n]);
    k := WindowOpened(w, steps, n);
  }

  /** When an undisturbed run has just committed, finishing the command makes `verify` succeed now and
      at every later time, and it reports the isolated jobs the operator confirmed. */
  lemma ApplyThenVerify(db: Database, steps: seq<Step>, later: Time)
    requires Undisturbed(Fresh(db), steps)
    requires Exec(Fresh(db), steps).phase.ApplyCommitted?
    requires Exec(Fresh(db), steps).phase.now <= later
    ensures var w := Exec(Fresh(db), steps);
      var done := Exec(w, [ApplyFinish]);
      && done.phase.Idle? && done.db == w.db
      && Verify(done.db, done.receipt, later) == Ok(|IsolatedJobs(w.db.jobs)|)
  {
    UndisturbedConsistent(Fresh(db), steps);
    var w := Exec(Fresh(db), steps);
    ExecOne(w, ApplyFinish);
    FinishedVerifies(w, later);
    hide Exec, Next, Consistent, Verify;
    assert Next(w, ApplyFinish).db == w.db && Next(w, ApplyFinish).phase.Idle?;
  }

  lemma FinishedVerifies(w: World, later: Time)
    requires Consistent(w) && w.phase.ApplyCommitted? && w.phase.now <= later
    ensures var done := Next(w, ApplyFinish);
      && done.db == w.db && done.phase.Idle?
      && Verify(done.db, done.receipt, later) == Ok(|IsolatedJobs(w.db.jobs)|)
  {
    WorkersStayStale(w.db, w.phase.now, later);
    hide UnknownCount, UnsettledCount, NonterminalCount, LegacySources, ActiveWorkers, Standing, ShadowRoutes,
      SafeJobs, IsolatedJobs, HoldsReceipt;
    assert Summarize(w.db, later) == Summarize(w.db, w.phase.now).(active := Summarize(w.db, later).active);
  }

  lemma ExecOne(w: World, step: Step)
    ensures Exec(w, [step]) == Next(w, step)
  {
    assert [step][..0] == [];
  }

  // ---------------------------------------------------------------- crashes, and disturbed applies

  ghost predicate NoOtherWrites(steps: seq<Step>) {
    forall i :: 0 <= i < |steps| ==> !steps[i].OtherWrite?
  }

  lemma NextKeepsRetired(w: World, step: Step)
    requires Consistent(w) && !step.OtherWrite?
    requires w.receipt.Some? && w.receipt.value.databaseSha != Sha256(w.db)
    ensures Next(w, step).db == w.db && Next(w, step).log == w.log
    ensures Next(w, step).receipt.Some? && Next(w, step).receipt.value.databaseSha == w.receipt.value.databaseSha
  {
    hide Transact, Summarize, RequireApplySafe, Quiet, Clean;
  }

  /** A commit that changed the content is never repeated: even when a crash kept its digest off the
      receipt, no later command changes the database as long as nobody else writes. */
  lemma {:induction false} CrashCannotRetireTwice(w: World, steps: seq<Step>)
    requires Consistent(w) && NoOtherWrites(steps)
    requires w.receipt.Some? && w.receipt.value.databaseSha != Sha256(w.db)
    ensures Exec(w, steps).db == w.db && Exec(w, steps).log == w.log
    ensures Consistent(Exec(w, steps))
    ensures Exec(w, steps).receipt.Some?
      && Exec(w, steps).receipt.value.databaseSha == w.receipt.value.databaseSha
  {
    hide Next, Consistent;
    if steps != [] {
      var n := |steps| - 1;
      CrashCannotRetireTwice(w, steps[..n]);
      NextKeepsRetired(Exec(w, steps[..n]), steps[n]);
      NextConsistent(Exec(w, steps[..n]), steps[n]);
    }
  }

  ghost function EmptyDatabase(rest: int): Database {
    Database(map[], map[], map[], map[], map[], None, {}, map[], map[], map[], map[], false, "", true, rest)
  }

  lemma EmptyIsSafe(rest: int, now: Time)
    ensures RequireApplySafe(Summarize(EmptyDatabase(rest), now), Confirmed(None, None)).None?
    ensures ActiveWorkers(EmptyDatabase(rest), now) == {}
  {
    var db := EmptyDatabase(rest);
    NoRows(db, STATE_TABLES);
    NoRows(db, COST_TABLES);
    hide NonterminalCount, BlockedCount, OpenCostCount;
    assert |ActiveWorkers(db, now)| == 0 && |IsolatedJobs(db.jobs)| == 0;
  }

  lemma {:induction false} NoRows(db: Database, tables: seq<string>)
    requires db.facts == map[]
    ensures NonterminalCount(db, tables) == BlockedCount(db, tables) == OpenCostCount(db, tables) == 0
  {
    if tables != [] {
      NoRows(db, tables[1..]);
      assert Rows(db, tables[0]) == map[];
    }
  }

  ghost const NOBODY := Confirmed(None, None)
  ghost const OPEN_GUARD := Guard(true, 0, 0, 0)

  ghost function EmptyReceipt(): Receipt {
    Receipt(Sha256(EmptyDatabase(0)), "", None, 0)
  }

  /** The empty database with its receipt written, and an apply past its receipt check. */
  ghost function CheckedWorld(content: Database): World {
    World(content, Some(EmptyReceipt()), ApplyChecked(NOBODY, 0, EmptyReceipt()), [])
  }

  ghost function ToCheck(): seq<Step> {
    [SnapStart(OPEN_GUARD)] + [SnapBackup] + [SnapWrite] + [ApplyStart(OPEN_GUARD, NOBODY)] + [ApplyCheck]
  }

  lemma ReachesCheck()
    ensures Exec(Fresh(EmptyDatabase(0)), ToCheck()) == CheckedWorld(EmptyDatabase(0))
  {
    var db := EmptyDatabase(0);
    var w := Fresh(db);
    assert db.shape == "";
    EmptyIsSafe(0, 0);
    assert Quiet(db, OPEN_GUARD);
    hide Quiet, Exec, EmptyDatabase, Summarize, RequireApplySafe, Transact;
    var s1 := [SnapStart(OPEN_GUARD)];
    ExecOne(w, SnapStart(OPEN_GUARD));
    ExecStep(w, s1, SnapBackup);
    ExecStep(w, s1 + [SnapBackup], SnapWrite);
    ExecStep(w, s1 + [SnapBackup] + [SnapWrite], ApplyStart(OPEN_GUARD, NOBODY));
    ExecStep(w, s1 + [SnapBackup] + [SnapWrite] + [ApplyStart(OPEN_GUARD, NOBODY)], ApplyCheck);
  }

  lemma PreviewPasses()
    ensures var w := CheckedWorld(EmptyDatabase(1));
      Next(w, ApplyPreview) == w.(phase := ApplyBackedUp(NOBODY, 0, EmptyReceipt()))
  {
    EmptyIsSafe(1, 0);
    hide Summarize, RequireApplySafe, ActiveWorkers, EmptyDatabase, Transact, Quiet;
  }

  lemma CommitsElsewhere()
    ensures var w := Next(Next(Next(CheckedWorld(EmptyDatabase(0)), OtherWrite(EmptyDatabase(1))),
                               ApplyPreview), ApplyTransact(true));
      |w.log| == 1 && !FromRecordedContent(w.log[0])
  {
    EmptyIsSafe(1, 0);
    PreviewPasses();
    assert EmptyDatabase(1) != EmptyDatabase(0);
    hide Summarize, RequireApplySafe, ActiveWorkers, Retire, EmptyDatabase, Quiet;
    assert Next(CheckedWorld(EmptyDatabase(0)), OtherWrite(EmptyDatabase(1))) == CheckedWorld(EmptyDatabase(1));
  }

  /** Such a write can happen: one between the receipt check and BEGIN IMMEDIATE lets an apply commit from
      a content its receipt never recorded. */
  lemma DisturbedApplyStartsElsewhere()
    ensures exists steps: seq<Step>, c: Commit ::
      c in Exec(Fresh(EmptyDatabase(0)), steps).log && !FromRecordedContent(c)
  {
    ReachesCheck();
    CommitsElsewhere();
    hide Next, FromRecordedContent, Exec, EmptyDatabase, ToCheck;
    var w := Fresh(EmptyDatabase(0));
    var s1 := ToCheck() + [OtherWrite(EmptyDatabase(1))];
    ExecStep(w, ToCheck(), OtherWrite(EmptyDatabase(1)));
    ExecStep(w, s1, ApplyPreview);
    ExecStep(w, s1 + [ApplyPreview], ApplyTransact(true));
    var steps := s1 + [ApplyPreview] + [ApplyTransact(true)];
    var c := Exec(w, steps).log[0];
    assert c in Exec(w, steps).log;
  }

  lemma ExecStep(w: World, steps: seq<Step>, step: Step)
    ensures Exec(w, steps + [step]) == Next(Exec(w, steps), step)
  {
    assert (steps + [step])[..|steps|] == steps;
    hide Next;
  }
}
