/** The offline ActorOps v2 installers: preview, backup, apply and restore, with a failure possible at
    every step and other writers possible between steps. */
module Installers {
  import opened Common

  datatype Marker = Marker(name: string, checksum: string)

  /** The database as an installer sees it. `shapes` are the versions whose tables, columns and triggers
      are complete, `partial` those of which anything is present; `v1Facts` is the fingerprint of the v1
      tables, `work` the unsettled v1 work the blocker queries find, `workers` the heartbeats that are
      fresh, `sound` the verdict of the integrity checks, and `rest` all other content. */
  datatype Db = Db(
    markers: map<int, Marker>, shapes: set<int>, partial: set<int>,
    v1Facts: int, work: nat, workers: nat, sound: bool, rest: int)

  datatype Error =
    | Occupied | InvalidSchema | PartialSchema | MissingPrerequisite | WorkersActive | WorkUnsettled
    | StepFailed | FactsChanged | ChecksFailed

  datatype Outcome =
    | AlreadyMigrated
    | Previewed
    | Applied
    | Refused(error: Error)        // stopped before a backup was taken
    | Failed(error: Error)         // stopped after the backup; the restore, if any, completed
    | RestoreFailed

  // ---------------------------------------------------------------- versions

  function MarkerOf(v: int): Marker {
    if v == 24 then Marker("apify_actor_pool_management_v22", "apify-actor-pool-management-v22-slot-operations")
    else if v == 26 then Marker("actorops_v2", "actorops-v2-stable-fetch-domain-v1")
    else if v == 32 then Marker("workspace_system_settings", "workspace-system-settings-v1")
    else if v == 33 then Marker("actorops_v2_stability", "actorops-v2-stability-v1")
    else if v == 34 then Marker("actorops_v2_dataset_revalidation", "actorops-v2-dataset-revalidation-v2")
    else if v == 35 then Marker("actorops_v2_sampling_plans", "actorops-v2-sampling-plans-v1")
    else if v == 36 then Marker("actorops_v2_verified_auto_replacement", "actorops-v2-verified-auto-replacement-v1")
    else Marker("other", "other")
  }

  predicate Chained(v: int) {
    33 <= v <= 36
  }

  predicate Marked(db: Db, v: int) {
    v in db.markers && db.markers[v] == MarkerOf(v)
  }

  /** Shape validation of a chained version includes that its predecessor is ready. */
  predicate ShapesValid(db: Db, v: int)
    decreases if Chained(v) then v - 32 else 0, 0
  {
    v in db.shapes && (Chained(v) ==> Ready(db, v - 1))
  }

  predicate Ready(db: Db, v: int)
    decreases if Chained(v) then v - 32 else 0, 1
  {
    Marked(db, v) && ShapesValid(db, v)
  }

  /** Every installed chained version stands on a ready predecessor. */
  ghost predicate Closed(db: Db) {
    forall v :: Chained(v) && Marked(db, v) ==> Ready(db, v - 1)
  }

  /** `_state`: Ok(true) when the version is ready, Ok(false) when it is required. */
  function StateOf(db: Db, v: int): Result<bool, Error> {
    if v in db.markers then
      if db.markers[v] != MarkerOf(v) then Err(Occupied)
      else if !ShapesValid(db, v) then Err(InvalidSchema)
      else Ok(true)
    else if !Ready(db, v - 1) then Err(MissingPrerequisite)
    else if v == 33 && v in db.partial then Err(PartialSchema)
    else Ok(false)
  }

  /** `_assert_migration_state` of version 26, whose prerequisite is version 24. */
  function StateOf26(db: Db): Result<bool, Error> {
    if 26 in db.markers then
      if db.markers[26] != MarkerOf(26) then Err(Occupied)
      else if 26 !in db.shapes then Err(InvalidSchema)
      else Ok(true)
    else if 26 in db.partial then Err(PartialSchema)
    else if !Ready(db, 24) then Err(MissingPrerequisite)
    else Ok(false)
  }

  /** The version whose shape check asks about rows: no route policy may hold an invalid value. */
  const ROW_CHECKED := 36

  /** The database with version `v` installed, and with the facts, soundness and other content that the
      schema module leaves. Installing makes a shape complete, unless its check asks about rows. */
  function Install(db: Db, v: int, left: Db): Db {
    db.(markers := db.markers[v := MarkerOf(v)],
        shapes := if v == ROW_CHECKED && v !in left.shapes then db.shapes - {v} else db.shapes + {v},
        partial := db.partial + {v}, v1Facts := left.v1Facts, sound := left.sound, rest := left.rest)
  }

  /** Other writers change anything but the schema, for they are not installers; the rows that a shape check
      asks about are not the schema. */
  ghost predicate NotAnInstaller(a: Db, b: Db) {
    b.markers == a.markers && b.partial == a.partial && b.shapes - {ROW_CHECKED} == a.shapes - {ROW_CHECKED}
  }

  /** What a run of a chained installer with no other writer may do to the database. */
  ghost predicate RunResult(v: int, before: Db, after: Db) {
    || after == before
    || (StateOf(before, v) == Ok(false) && after == Install(before, v, after))
  }

  // ---------------------------------------------------------------- what makes a version ready

  /** The markers of versions 32 to 36. */
  const CHAIN: seq<Marker> := [
    Marker("workspace_system_settings", "workspace-system-settings-v1"),
    Marker("actorops_v2_stability", "actorops-v2-stability-v1"),
    Marker("actorops_v2_dataset_revalidation", "actorops-v2-dataset-revalidation-v2"),
    Marker("actorops_v2_sampling_plans", "actorops-v2-sampling-plans-v1"),
    Marker("actorops_v2_verified_auto_replacement", "actorops-v2-verified-auto-replacement-v1")]

  ghost predicate InPlace(db: Db, w: int)
    requires 32 <= w <= 36
  {
    w in db.markers && db.markers[w] == CHAIN[w - 32] && w in db.shapes
  }

  /** A version is ready exactly when it and all versions below it, down to 32, have marker and shape. */
  lemma {:induction false} ReadyRows(db: Db, v: int)
    requires 32 <= v <= 36
    ensures Ready(db, v) <==> forall w | 32 <= w <= v :: InPlace(db, w)
  {
    assert MarkerOf(v) == CHAIN[v - 32];
    if v > 32 {
      ReadyRows(db, v - 1);
      assert Ready(db, v) <==> InPlace(db, v) && Ready(db, v - 1);
    } else {
      assert Ready(db, v) <==> InPlace(db, v);
    }
    hide Ready, InPlace;
  }

  /** The state of a chained version, read off markers and shapes. */
  lemma StateRows(db: Db, v: int)
    requires 33 <= v <= 36
    ensures var below := forall w | 32 <= w <= v - 1 :: InPlace(db, w);
      StateOf(db, v) ==
        if v in db.markers then
          if db.markers[v] != CHAIN[v - 32] then Err(Occupied)
          else if v in db.shapes && below then Ok(true)
          else Err(InvalidSchema)
        else if !below then Err(MissingPrerequisite)
        else if v == 33 && 33 in db.partial then Err(PartialSchema)
        else Ok(false)
  {
    ReadyRows(db, v - 1);
    hide Ready, InPlace;
  }

  /** And that of version 26. */
  lemma State26Rows(db: Db)
    ensures var marker := Marker("actorops_v2", "actorops-v2-stable-fetch-domain-v1");
      var prerequisite := Marker("apify_actor_pool_management_v22", "apify-actor-pool-management-v22-slot-operations");
      StateOf26(db) ==
        if 26 in db.markers then
          if db.markers[26] != marker then Err(Occupied) else if 26 in db.shapes then Ok(true) else Err(InvalidSchema)
        else if 26 in db.partial then Err(PartialSchema)
        else if 24 in db.markers && db.markers[24] == prerequisite && 24 in db.shapes then Ok(false)
        else Err(MissingPrerequisite)
  {
  }

  // ---------------------------------------------------------------- the database file and its installers

  class Host {
    var db: Db
    var backups: seq<Db>
    /** Nobody else writes during the run. */
    const quiet: bool
    /** The schema modules of versions 33 to 36, whose installers do not compare the v1 facts, leave them alone. */
    const schemaKeepsFacts: bool

    constructor (db: Db, quiet: bool, schemaKeepsFacts: bool)
      ensures this.db == db && this.quiet == quiet && this.schemaKeepsFacts == schemaKeepsFacts && backups == []
    {
      this.db, this.quiet, this.schemaKeepsFacts, backups := db, quiet, schemaKeepsFacts, [];
    }

    /** What other writers may do between two steps of an installer. */
    method OtherWriters()
      modifies `db
      ensures NotAnInstaller(old(db), db)
      ensures quiet ==> db == old(db)
    {
      if !quiet {
        var facts: int, work: nat, workers: nat, sound: bool, rest: int := *, *, *, *, *;
        var rowsValid: bool := *;
        db := db.(v1Facts := facts, work := work, workers := workers, sound := sound, rest := rest,
                  shapes := if rowsValid then db.shapes + {ROW_CHECKED} else db.shapes - {ROW_CHECKED});
      }
    }

    method TakeBackup() returns (ok: bool)
      modifies `backups
      ensures ok ==> backups == old(backups) + [db]
      ensures !ok ==> backups == old(backups)
    {
      ok := *;
      if ok {
        backups := backups + [db];
      }
    }

    /** Copies the backup to a temporary file, verifies it, and replaces the database with it. A failure
        before the replacement leaves the database alone; one after it is reported as a failure too. */
    method Restore(backup: Db) returns (ok: bool)
      modifies `db
      ensures ok ==> db == backup
      ensures !ok ==> db == backup || db == old(db)
    {
      var replaced: bool := *;
      ok := *;
      if replaced || ok {
        db := backup;
      }
    }

    /** The schema module's `apply_migration`: its own check, then one transaction. It may fail with the
        transaction rolled back, or, in its validation after the commit, with the version installed. */
    method ApplyMigration(v: int) returns (ok: bool)
      requires Chained(v)
      modifies `db
      ensures ok ==> db == old(db) || db == Install(old(db), v, db)
      ensures db != old(db) ==> StateOf(old(db), v) == Ok(false) && db == Install(old(db), v, db)
      ensures ok ==> Ready(db, v)
      ensures schemaKeepsFacts ==> db.v1Facts == old(db).v1Facts
    {
      var state := StateOf(db, v);
      if state.Err? {
        return false;
      }
      if state.value {
        return true;
      }
      var committed: bool := *;
      if !committed {
        return false;
      }
      var facts: int, sound: bool, rest: int := *, *, *;
      if schemaKeepsFacts {
        facts := db.v1Facts;
      }
      db := Install(db, v, db.(v1Facts := facts, sound := sound, rest := rest));
      ok := *;
      ok := ok && Ready(db, v);
    }

    method Preview(v: int) returns (r: Result<bool, Error>, workers: nat)
      ensures r == StateOf(db, v) && workers == db.workers
    {
      r := StateOf(db, v);
      workers := db.workers;
    }

    /** The installers of versions 33 to 36, which restore only once `apply_started`. `seen` is the
        database at the second heartbeat check. */
    method Migrate(v: int, apply: bool) returns (r: Outcome, ghost seen: Db)
      requires Chained(v)
      modifies this
      ensures Closed(old(db)) ==> Closed(db)
      ensures quiet && !r.RestoreFailed? ==> RunResult(v, old(db), db)
      ensures r.AlreadyMigrated? || r.Previewed? || r.Refused? ==> backups == old(backups)
      ensures r.AlreadyMigrated? || r.Previewed? ==> db == old(db)
      ensures r.AlreadyMigrated? <==> StateOf(old(db), v) == Ok(true)
      ensures r.Previewed? <==> StateOf(old(db), v) == Ok(false) && !apply
      ensures StateOf(old(db), v).Err? ==> r == Refused(StateOf(old(db), v).error)
      ensures r == Refused(WorkersActive) <==> StateOf(old(db), v) == Ok(false) && apply && old(db).workers > 0
      ensures !apply ==> db == old(db) && backups == old(backups) && !r.Applied?
      ensures r.Refused? ==> StateOf(old(db), v).Err? || r.error == WorkersActive || r.error == StepFailed
      ensures r.Applied? || r.Failed? || r.RestoreFailed? ==>
        && apply && StateOf(old(db), v) == Ok(false) && old(db).workers == 0
        && |backups| == |old(backups)| + 1 && backups[..|old(backups)|] == old(backups)
      ensures r.Applied? ==> seen.workers == 0 && NotAnInstaller(old(db), seen)
      ensures r.Applied? ==> Ready(db, v) && db.sound
      ensures quiet && schemaKeepsFacts && r.Applied? ==> db.v1Facts == old(db).v1Facts
      ensures quiet && (r.Refused? || r.Failed?) ==> db == old(db)
      ensures r.Failed? && r.error == WorkersActive ==> db == seen && seen.workers > 0 && NotAnInstaller(old(db), seen)
    {
      var state, workers := Preview(v);
      if state.Err? {
        return Refused(state.error), db;
      }
      if state.value {
        return AlreadyMigrated, db;
      }
      if !apply {
        return Previewed, db;
      }
      if workers > 0 {
        return Refused(WorkersActive), db;
      }
      ghost var start := db;
      OtherWriters();
      SameSchema(start, db);
      var saved := TakeBackup();
      if !saved {
        return Refused(StepFailed), db;
      }
      r, seen := AfterBackup(v, db);
    }

    /** The part of the run that has a backup to go back to. */
    method AfterBackup(v: int, backup: Db) returns (r: Outcome, ghost seen: Db)
      requires Chained(v) && db == backup
      modifies `db
      ensures Closed(old(db)) ==> Closed(db)
      ensures quiet && !r.RestoreFailed? ==> RunResult(v, old(db), db)
      ensures r.Applied? || r.Failed? || r.RestoreFailed?
      ensures r.Applied? ==> Ready(db, v) && db.sound
      ensures quiet && schemaKeepsFacts && r.Applied? ==> db.v1Facts == old(db).v1Facts
      ensures quiet && r.Failed? ==> db == old(db)
      ensures r.Applied? ==> seen.workers == 0 && NotAnInstaller(old(db), seen)
      ensures r.Failed? && r.error == WorkersActive ==> db == seen && seen.workers > 0 && NotAnInstaller(old(db), seen)
    {
      OtherWriters();
      SameSchema(old(db), db);
      var state := StateOf(db, v);
      seen := db;
      if state.Err? {
        return Failed(state.error), seen;
      }
      if db.workers > 0 {
        return Failed(WorkersActive), seen;
      }
      var applied := ApplyAndCheck(v);
      if applied {
        return Applied, seen;
      }
      var restored := Restore(backup);
      r := if restored then Failed(ChecksFailed) else RestoreFailed;
    }

    /** From `apply_started` to the end of the try block. */
    method ApplyAndCheck(v: int) returns (ok: bool)
      requires Chained(v)
      modifies `db
      ensures ok ==> Ready(db, v) && db.sound
      ensures Closed(old(db)) ==> Closed(db)
      ensures quiet && db != old(db) ==> StateOf(old(db), v) == Ok(false) && db == Install(old(db), v, db)
      ensures quiet && schemaKeepsFacts ==> db.v1Facts == old(db).v1Facts
    {
      OtherWriters();
      SameSchema(old(db), db);
      ghost var before := db;
      ok := ApplyMigration(v);
      if before != db {
        InstallKeepsClosed(before, v, db);
      }
      if !ok {
        return;
      }
      label installed:
      OtherWriters();
      SameSchema(old@installed(db), db);
      ok := db.sound && Marked(db, v) && ShapesValid(db, v);
    }

    /** The installer of version 26, which restores its backup after every failure, so that a run
        stopped by its second heartbeat check undoes whatever `seen` shows others wrote meanwhile. */
    method Migrate26(apply: bool) returns (r: Outcome, ghost seen: Db)
      modifies this
      ensures r.AlreadyMigrated? || r.Previewed? || r.Refused? ==> backups == old(backups)
      ensures r.AlreadyMigrated? || r.Previewed? ==> db == old(db)
      ensures r.AlreadyMigrated? <==> StateOf26(old(db)) == Ok(true)
      ensures r.Previewed? <==> StateOf26(old(db)) == Ok(false) && !apply
      ensures StateOf26(old(db)).Err? ==> r == Refused(StateOf26(old(db)).error)
      ensures r == Refused(WorkUnsettled) <==>
        StateOf26(old(db)) == Ok(false) && apply && (old(db).workers > 0 || old(db).work > 0)
      ensures !apply ==> db == old(db) && backups == old(backups) && !r.Applied?
      ensures r.Refused? ==> StateOf26(old(db)).Err? || r.error == WorkUnsettled || r.error == StepFailed
      ensures r.Applied? || r.Failed? || r.RestoreFailed? ==>
        && apply && StateOf26(old(db)) == Ok(false) && old(db).workers == 0 && old(db).work == 0
        && |backups| == |old(backups)| + 1 && backups[..|old(backups)|] == old(backups)
      ensures r.Applied? ==> seen.workers == 0
      ensures r.Applied? ==> Marked(db, 26) && 26 in db.shapes && db.sound
      ensures quiet && r.Applied? ==> db.v1Facts == old(db).v1Facts
      ensures quiet && (r.Refused? || r.Failed?) ==> db == old(db)
      ensures r.Failed? ==> |backups| == |old(backups)| + 1 && db == backups[|old(backups)|]
      ensures r.Failed? && r.error == WorkersActive ==> seen.workers > 0 && NotAnInstaller(db, seen)
    {
      var state := StateOf26(db);
      if state.Err? {
        return Refused(state.error), db;
      }
      if state.value {
        return AlreadyMigrated, db;
      }
      if !apply {
        return Previewed, db;
      }
      if db.workers > 0 || db.work > 0 {
        return Refused(WorkUnsettled), db;
      }
      OtherWriters();
      var saved := TakeBackup();
      if !saved {
        return Refused(StepFailed), db;
      }
      var backup := db;
      OtherWriters();
      seen := db;
      ghost var begun;
      var failure;
      failure, begun := Backfill26();
      if failure.None? {
        return Applied, seen;
      }
      var restored := Restore(backup);
      r := if restored then Failed(failure.value) else RestoreFailed;
    }

    /** The try block of version 26. The backfill commits before it compares the v1 fingerprints. `begun` is the
        database when the transaction begins, after the heartbeats have been checked. */
    method Backfill26() returns (failure: Option<Error>, ghost begun: Db)
      modifies `db
      ensures failure.None? ==> Marked(db, 26) && 26 in db.shapes && db.sound
      ensures quiet && failure.None? ==> db.v1Facts == old(db).v1Facts
      ensures failure == Some(WorkersActive) <==> StateOf26(old(db)).Ok? && old(db).workers > 0
      ensures failure.None? ==> old(db).workers == 0
      ensures failure.None? || failure == Some(WorkUnsettled) ==>
        NotAnInstaller(old(db), begun) && (begun.work > 0 <==> failure == Some(WorkUnsettled))
    {
      var state := StateOf26(db);
      if state.Err? {
        return Some(state.error), db;
      }
      if db.workers > 0 {
        return Some(WorkersActive), db;
      }
      var before := db.v1Facts;
      OtherWriters();
      begun := db;
      var failed: bool := *;
      if db.work > 0 {
        return Some(WorkUnsettled), begun;
      }
      if failed {
        return Some(StepFailed), begun;
      }
      var facts: int, sound: bool, rest: int := *, *, *;
      db := Install(db, 26, db.(v1Facts := facts, sound := sound, rest := rest));
      if db.v1Facts != before {
        return Some(FactsChanged), begun;
      }
      if !db.sound {
        return Some(ChecksFailed), begun;
      }
      return None, begun;
    }
  }

  // ---------------------------------------------------------------- the chain

  lemma {:induction false} SameSchemaReady(a: Db, b: Db, v: int)
    requires NotAnInstaller(a, b) && v < ROW_CHECKED
    ensures Ready(a, v) == Ready(b, v) && ShapesValid(a, v) == ShapesValid(b, v)
    decreases if Chained(v) then v - 32 else 0
  {
    assert v in a.shapes - {ROW_CHECKED} <==> v in b.shapes - {ROW_CHECKED};
    if Chained(v) {
      SameSchemaReady(a, b, v - 1);
    }
  }

  lemma SameSchema(a: Db, b: Db)
    requires NotAnInstaller(a, b)
    ensures Closed(a) == Closed(b)
    ensures forall v | v < ROW_CHECKED :: Ready(a, v) == Ready(b, v) && ShapesValid(a, v) == ShapesValid(b, v)
  {
    forall v | v < ROW_CHECKED ensures Ready(a, v) == Ready(b, v) && ShapesValid(a, v) == ShapesValid(b, v) {
      SameSchemaReady(a, b, v);
    }
  }

  /** Installing a version that was not installed leaves every other version as ready as it was. */
  lemma {:induction false} InstallKeepsReady(db: Db, v: int, left: Db, w: int)
    requires v !in db.markers && Ready(db, w)
    ensures Ready(Install(db, v, left), w)
    decreases if Chained(w) then w - 32 else 0
  {
    if Chained(w) {
      InstallKeepsReady(db, v, left, w - 1);
    }
  }

  /** A version that has just been installed is ready, but for the rows that its shape check asks about. */
  lemma InstalledIsReady(db: Db, v: int, left: Db)
    requires Chained(v) && StateOf(db, v) == Ok(false)
    ensures Ready(Install(db, v, left), v) <==> v != ROW_CHECKED || v in left.shapes
  {
    InstallKeepsReady(db, v, left, v - 1);
  }

  lemma InstallKeepsClosed(db: Db, v: int, left: Db)
    requires Chained(v) && StateOf(db, v) == Ok(false)
    ensures Closed(db) ==> Closed(Install(db, v, left))
  {
    if Closed(db) {
      var after := Install(db, v, left);
      forall w | Chained(w) && Marked(after, w) ensures Ready(after, w - 1) {
        assert w == v || Marked(db, w);
        InstallKeepsReady(db, v, left, w - 1);
      }
    }
  }

  /** One run. */
  lemma RunStaysClosed(v: int, before: Db, after: Db)
    requires Chained(v) && RunResult(v, before, after) && Closed(before)
    ensures Closed(after) && before.markers.Keys <= after.markers.Keys
    ensures v in before.markers ==> after == before
  {
    if after != before {
      InstallKeepsClosed(before, v, after);
    }
  }

  ghost predicate Runs(versions: seq<int>, dbs: seq<Db>) {
    && |dbs| == |versions| + 1 && Closed(dbs[0])
    && forall i | 0 <= i < |versions| :: Chained(versions[i]) && RunResult(versions[i], dbs[i], dbs[i + 1])
  }

  lemma {:induction false} ClosedAfter(versions: seq<int>, dbs: seq<Db>, n: nat)
    requires Runs(versions, dbs) && n <= |versions|
    ensures Closed(dbs[n]) && dbs[0].markers.Keys <= dbs[n].markers.Keys
  {
    hide Closed, RunResult, Chained;
    if n > 0 {
      ClosedAfter(versions, dbs, n - 1);
      RunStaysClosed(versions[n - 1], dbs[n - 1], dbs[n]);
    }
  }

  /** Over any sequence of runs of the chained installers, successful, failed or repeated, the installed
      versions stay closed under prerequisites and none disappears, and a run of a version that is
      installed changes nothing. */
  lemma ChainStaysClosed(versions: seq<int>, dbs: seq<Db>)
    requires Runs(versions, dbs)
    ensures forall i | 0 <= i < |dbs| :: Closed(dbs[i]) && dbs[0].markers.Keys <= dbs[i].markers.Keys
    ensures forall i | 0 <= i < |versions| && versions[i] in dbs[i].markers :: dbs[i + 1] == dbs[i]
  {
    assert |dbs| == |versions| + 1;
    hide Closed, RunResult, Chained, Runs;
    forall i | 0 <= i < |dbs| ensures Closed(dbs[i]) && dbs[0].markers.Keys <= dbs[i].markers.Keys {
      ClosedAfter(versions, dbs, i);
    }
    forall i | 0 <= i < |versions| && versions[i] in dbs[i].markers ensures dbs[i + 1] == dbs[i] {
      ClosedAfter(versions, dbs, i);
      RunAt(versions, dbs, i);
      RunStaysClosed(versions[i], dbs[i], dbs[i + 1]);
    }
  }

  lemma RunAt(versions: seq<int>, dbs: seq<Db>, i: nat)
    requires Runs(versions, dbs) && i < |versions|
    ensures Chained(versions[i]) && RunResult(versions[i], dbs[i], dbs[i + 1])
  {
  }
}
