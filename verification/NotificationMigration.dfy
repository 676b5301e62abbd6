/** The v15 and v16 migrations as transactions that change the tables step by step. */
module NotificationMigration {
  import opened Common
  import opened Notifications

  /** The database behind one connection. The fields other than `committed` are what the connection sees;
      `committed` is what others see and what a rollback goes back to. */
  class NotificationDb {
    var settings: map<Owner, Settings>
    var channels: map<ChannelKey, ChannelState>
    var deliveries: map<DeliveryId, Delivery>
    var targets: map<TargetId, Target>
    var bindings: map<(Owner, TargetId), Binding>
    var marked: bool
    var committed: Image
    /** Nobody else writes while the migration runs. */
    const quiet: bool

    function Contents(): Tables
      reads this
    {
      Tables(settings, channels, deliveries, targets, bindings)
    }

    function Current(): Image
      reads this
    {
      Image(Contents(), marked)
    }

    constructor (image: Image, quiet: bool)
      ensures Current() == committed == image && this.quiet == quiet
    {
      var t := image.tables;
      settings, channels, deliveries := t.settings, t.channels, t.deliveries;
      targets, bindings := t.targets, t.bindings;
      marked, committed := image.marked, image;
      this.quiet := quiet;
    }

    method Load(image: Image)
      modifies `settings, `channels, `deliveries, `targets, `bindings, `marked
      ensures Current() == image
    {
      var t := image.tables;
      settings, channels, deliveries := t.settings, t.channels, t.deliveries;
      targets, bindings, marked := t.targets, t.bindings, image.marked;
    }

    method Commit()
      modifies `committed
      ensures committed == Current()
    {
      committed := Current();
    }

    method Rollback()
      modifies `settings, `channels, `deliveries, `targets, `bindings, `marked
      ensures Current() == committed
    {
      Load(committed);
    }

    /** What other writers may do while no transaction is open. While the v15 tables stand, their unique
        constraint stands too. */
    method OtherWriters(v15: bool)
      requires v15 ==> UniquePerChannel(deliveries)
      modifies this
      ensures committed == Current()
      ensures quiet ==> Current() == old(Current())
      ensures v15 ==> UniquePerChannel(deliveries)
    {
      if !quiet {
        var image: Image := *;
        if v15 && !UniquePerChannel(image.tables.deliveries) {
          image := Current();
        }
        Load(image);
      }
      Commit();
    }

    // -------------------------------------------------------------- v15

    method CreateChannelTables()
      modifies `channels
      ensures channels == ChannelTable(settings)
    {
      channels := map o, c | o in settings && c in CHANNELS :: (o, c) := ChannelRow(o, settings[o], c);
    }

    /** One insert: the delivery of the next join row, with the generation of its channel row or 1. */
    method InsertJoined(was: map<DeliveryId, Delivery>, rows: seq<(DeliveryId, Option<ChannelKey>)>, i: nat,
                        rebuilt: map<DeliveryId, Delivery>)
      returns (refusal: Option<Abort>, more: map<DeliveryId, Delivery>)
      requires Enumerates(rows, JoinRows(was, channels)) && i < |rows| && Joined(was, channels, rows[..i], rebuilt)
      ensures refusal.None? ==> Joined(was, channels, rows[..i + 1], more)
      ensures refusal.Some? ==> !UniquePerChannel(was)
    {
      hide JoinRows, UniquePerChannel, Enumerates, Joined;
      var (d, k) := rows[i];
      JoinRowIs(was, channels, rows, i);
      JoinRepeats(was, channels, rows, i, rebuilt);
      if d in rebuilt {
        assert false;
      }
      if Conflicts(rebuilt, d, was[d]) {
        JoinConflicts(was, channels, rows[..i], rebuilt, d);
        return Some(DuplicateDelivery), rebuilt;
      }
      var generation := if k.Some? then channels[k.value].generation else 1;
      JoinOneMore(was, channels, rows, i, rebuilt);
      return None, rebuilt[d := was[d].(channelGeneration := Some(generation))];
    }

    /** INSERT ... SELECT into the rebuilt table, one insert for each row of the join. */
    method RebuildWithGenerations() returns (refusal: Option<Abort>)
      modifies `deliveries
      ensures refusal.None? <==> UniquePerChannel(old(deliveries))
      ensures refusal.None? ==>
        deliveries == map d | d in old(deliveries) :: WithGeneration(channels, old(deliveries)[d])
    {
      var was := deliveries;
      var rows := Fetch(JoinRows(was, channels));
      var rebuilt: map<DeliveryId, Delivery> := map[];
      hide JoinRows, WithGeneration, UniquePerChannel, Enumerates, Joined;
      NothingJoined(was, channels);
      for i := 0 to |rows|
        invariant Joined(was, channels, rows[..i], rebuilt)
      {
        refusal, rebuilt := InsertJoined(was, rows, i, rebuilt);
        if refusal.Some? {
          return;
        }
      }
      assert rows[..|rows|] == rows;
      JoinIsAll(was, channels, rows, rebuilt);
      deliveries := rebuilt;
      return None;
    }

    /** The v15 transaction; `checks` is the verdict of the schema and integrity validation. It commits
        exactly when the checks pass and the constraints of the rebuilt tables hold. */
    method ApplyV15(checks: bool) returns (refusal: Option<Abort>)
      requires committed == Current()
      modifies this
      ensures refusal.None? <==>
        && checks && (forall o | o in old(settings) :: old(settings)[o].signingEnv.Some? == old(settings)[o].signingDigest.Some?)
        && UniquePerChannel(old(deliveries))
      ensures Contents() == if refusal.None? then V15(old(Contents())) else old(Contents())
      ensures committed == Current()
    {
      hide UniquePerChannel, WithGeneration, ChannelTable;
      var before := |deliveries|;
      CreateChannelTables();
      if !SigningPaired(settings) {
        Rollback();
        return Some(CheckViolated);
      }
      refusal := RebuildWithGenerations();
      if refusal.Some? {
        Rollback();
        return;
      }
      SameSize(committed.tables.deliveries, deliveries);
      if |deliveries| != before {
        assert false;
      }
      if !checks {
        Rollback();
        return Some(ValidationFailed);
      }
      Commit();
    }

    // -------------------------------------------------------------- v16

    method InsertTarget(id: TargetId, target: Target) returns (refusal: Option<Abort>)
      modifies `targets
      ensures refusal == Refusal(old(targets), id, target)
      ensures refusal.None? ==> id !in old(targets)
      ensures targets == if refusal.None? then old(targets)[id := target] else old(targets)
    {
      refusal := Refusal(targets, id, target);
      if refusal.None? {
        targets := targets[id := target];
      }
    }

    /** One iteration: a target and its binding for the next channel row. */
    method MigrateRow(t: Tables, rows: seq<ChannelKey>, i: nat) returns (refusal: Option<Abort>)
      requires Enumerates(rows, Selected(t)) && i < |rows|
      requires HoldsLegacy(t, Members(rows[..i]), targets) && HoldsBindings(t, Members(rows[..i]), bindings)
      requires Insertable(t, rows[..i])
      modifies `targets, `bindings
      ensures refusal.None? ==> HoldsLegacy(t, Members(rows[..i + 1]), targets)
      ensures refusal.None? ==> HoldsBindings(t, Members(rows[..i + 1]), bindings)
      ensures refusal.None? ==> Insertable(t, rows[..i + 1])
      ensures refusal.Some? ==> !LegacyInsertable(t)
    {
      var k := rows[i];
      assert k in rows && k in Selected(t);
      var id := IdOf(false, KeyFor(t, k));
      NextLegacy(t, rows, i, targets);
      LegacyAdded(t, rows, i, targets, bindings);
      var target := LegacyTarget(t, k);
      hide HoldsLegacy, HoldsBindings, Insertable, LegacyInsertable, Refusal, Selected, Enumerates, IdOf;
      refusal := InsertTarget(id, target);
      if refusal.None? {
        bindings := bindings[(k.0, id) := LegacyBinding(t, k)];
      }
    }

    method MigrateCurrentTargets() returns (refusal: Option<Abort>)
      requires targets == map[] && bindings == map[]
      modifies `targets, `bindings
      ensures refusal.None? <==> LegacyInsertable(old(Contents()))
      ensures refusal.None? ==> HoldsLegacy(old(Contents()), Selected(old(Contents())), targets)
      ensures refusal.None? ==> HoldsBindings(old(Contents()), Selected(old(Contents())), bindings)
    {
      var t := Contents();
      var rows := Fetch(Selected(t));
      var i := 0;
      NothingMigrated(t);
      hide HoldsLegacy, HoldsBindings, Insertable, LegacyInsertable, Selected, Enumerates;
      while i < |rows|
        invariant 0 <= i <= |rows|
        invariant settings == t.settings && channels == t.channels && deliveries == t.deliveries
        invariant HoldsLegacy(t, Members(rows[..i]), targets)
        invariant HoldsBindings(t, Members(rows[..i]), bindings)
        invariant Insertable(t, rows[..i])
      {
        refusal := MigrateRow(t, rows, i);
        if refusal.Some? {
          return;
        }
        i := i + 1;
      }
      AllInsertable(t, rows);
      assert rows[..i] == rows && Members(rows) == Selected(t);
      return None;
    }

    /** One iteration: a disabled placeholder for the next row of delivery history. */
    method PlaceholderRow(legacy: map<TargetId, Target>, rows: seq<(Key, int)>, i: nat)
      returns (refusal: Option<Abort>)
      requires i < |rows| && rows[i] !in rows[..i]
      requires HoldsPlaceholders(legacy, Members(rows[..i]), targets) && NoPlaceholders(legacy)
      modifies `targets
      ensures refusal.None? ==> HoldsPlaceholders(legacy, Members(rows[..i + 1]), targets)
      ensures refusal.None? <==> FreshId(legacy, rows, i)
    {
      var (key, createdAt) := rows[i];
      var target := Placeholder(key, createdAt);
      NextPlaceholder(legacy, rows, i, targets);
      hide HoldsPlaceholders, Refusal, IdOf, FreshId, NoPlaceholders;
      refusal := InsertTarget(IdOf(true, key), target);
    }

    method CreateHistoricalPlaceholders() returns (refusal: Option<Abort>)
      requires NoPlaceholders(targets)
      modifies `targets
      ensures var rows := OrphanRows(deliveries, old(targets));
        && (refusal.None? <==> RowsInsertable(old(targets), rows))
        && (refusal.None? ==> HoldsPlaceholders(old(targets), rows, targets))
    {
      var legacy := targets;
      var rows := Fetch(OrphanRows(deliveries, legacy));
      NoRowsDone(legacy);
      var i := 0;
      hide HoldsPlaceholders, NoPlaceholders, OrphanRows, FreshId, RowsInsertable;
      while i < |rows|
        invariant 0 <= i <= |rows|
        invariant HoldsPlaceholders(legacy, Members(rows[..i]), targets)
        invariant forall j | 0 <= j < i :: FreshId(legacy, rows, j)
      {
        refusal := PlaceholderRow(legacy, rows, i);
        if refusal.Some? {
          AllFresh(legacy, rows, OrphanRows(deliveries, legacy));
          return;
        }
        i := i + 1;
      }
      AllFresh(legacy, rows, OrphanRows(deliveries, legacy));
      assert rows[..i] == rows && Members(rows) == OrphanRows(deliveries, legacy);
      return None;
    }

    method MapDeliveryTargets()
      modifies `deliveries
      ensures deliveries.Keys == old(deliveries).Keys
      ensures forall d | d in deliveries :: IsMapped(old(deliveries)[d], deliveries[d], targets)
    {
      var was := deliveries;
      var left := was.Keys;
      hide IsMapped;
      while left != {}
        invariant left <= was.Keys && deliveries.Keys == was.Keys
        invariant forall d | d in was :: if d in left then deliveries[d] == was[d] else IsMapped(was[d], deliveries[d], targets)
        decreases left
      {
        var d :| d in left;
        var mapped := MapOne(was[d]);
        deliveries := deliveries[d := mapped];
        left := left - {d};
      }
    }

    method MapOne(d: Delivery) returns (m: Delivery)
      ensures IsMapped(d, m, targets)
    {
      var found := Candidates(targets, KeyOf(d));
      if found == {} {
        return Mapped(d, None, None);
      }
      var i :| i in found;
      var j :| j in found;
      return Mapped(d, Some(i), Some(targets[j].name));
    }

    /** Rebuilds one of the two delivery tables. The script that creates its indexes first commits what the
        connection has done so far; the rows stay even where an index cannot be created. */
    method RebuildTable(preferred: bool) returns (refusal: Option<Abort>)
      modifies this
      ensures committed == Current()
      ensures quiet ==> Current() == old(Current()).(tables := old(Contents()).(
        deliveries := RebuiltTable(old(deliveries), preferred)))
      ensures quiet ==> (refusal.None? <==> IndexesHold(deliveries, preferred))
    {
      deliveries := RebuiltTable(deliveries, preferred);
      Commit();
      OtherWriters(false);
      refusal := if IndexesHold(deliveries, preferred) then None else Some(DuplicateDelivery);
    }

    method FillTargets() returns (refusal: Option<Abort>)
      requires targets == map[] && bindings == map[]
      modifies `targets, `bindings
      ensures refusal.None? <==> LegacyInsertable(old(Contents())) && PlaceholdersInsertable(old(Contents()))
      ensures refusal.None? ==> TargetsFilled(old(Contents()), targets, bindings)
    {
      var t := Contents();
      hide LegacyInsertable, HoldsLegacy, HoldsBindings, PlaceholdersInsertable, OrphanRows, Selected, Orphans,
        HoldsPlaceholders, RowsInsertable, NoPlaceholders;
      refusal := MigrateCurrentTargets();
      if refusal.Some? {
        return;
      }
      SameOrphans(t, targets);
      refusal := CreateHistoricalPlaceholders();
    }

    /** Maps and rebuilds the deliveries over filled targets; with no other writer no guard can fire. */
    method MapAndRebuild(ghost t: Tables) returns (refusal: Option<Abort>)
      requires TargetsFilled(t, targets, bindings)
      requires t.settings == settings && t.channels == channels && t.deliveries == deliveries
      requires UniquePerChannel(deliveries)
      modifies this
      ensures committed == Current()
      ensures quiet ==> refusal.None? && Migrated(t, Contents()) && marked == old(marked)
    {
      hide UniquePerChannel, UniquePerTarget, TargetsFilled, Migrated, IsMapped, DeliveryMigrated, RebuiltTable, IndexesHold;
      MapDeliveryTargets();
      ghost var mapped := deliveries;
      EveryDeliveryIsMapped(t, targets, bindings, mapped);
      if exists d :: d in deliveries && deliveries[d].targetId.None? {
        assert false;
      }
      TablesRebuilt(mapped);
      RebuiltIsMigrated(t, targets, bindings, mapped, RebuiltTable(RebuiltTable(mapped, true), false));
      refusal := RebuildTable(true);
      if refusal.Some? {
        return;
      }
      refusal := RebuildTable(false);
    }

    /** Empties targets and bindings and fills them again. */
    method RefillTargets() returns (refusal: Option<Abort>)
      modifies `targets, `bindings
      ensures refusal.None? <==> TargetsInsertable(old(Contents()))
      ensures refusal.None? ==> TargetsFilled(old(Contents()), targets, bindings)
    {
      ghost var saved := Contents();
      bindings := map[];
      targets := map[];
      EmptiedReads(saved);
      hide TargetsFilled, LegacyInsertable, PlaceholdersInsertable;
      refusal := FillTargets();
    }

    /** The rewrite as `_apply_schema` runs it; `checks` is the verdict of the schema and integrity validation.
        Its transaction ends with the first rebuild: a failed check rolls back the marker only. */
    method ApplyV16(checks: bool) returns (refusal: Option<Abort>)
      requires committed == Current() && UniquePerChannel(deliveries)
      modifies this
      ensures committed == Current()
      ensures !TargetsInsertable(old(Contents())) ==> refusal.Some? && Current() == old(Current())
      ensures refusal.None? ==> checks && marked
      ensures quiet ==> V16Outcome(old(Current()), checks, refusal, Current())
    {
      hide UniquePerChannel, TargetsFilled, Migrated, TargetsInsertable;
      ghost var saved := Contents();
      refusal := RefillTargets();
      if refusal.Some? {
        Rollback();
        return;
      }
      refusal := MapAndRebuild(saved);
      if refusal.Some? {
        return;
      }
      marked := true;
      if !checks {
        Rollback();
        return Some(ValidationFailed);
      }
      Commit();
    }

    // -------------------------------------------------------------- the v16 run around it

    /** Copies the backup over the database. It completes, or fails before or after the copy. */
    method Restore(backup: Image) returns (ok: bool)
      modifies this
      ensures committed == Current()
      ensures Current() == backup || (!ok && Current() == old(Current()))
    {
      var copied: bool := *;
      ok := *;
      if copied || ok {
        Load(backup);
      }
      Commit();
    }

    /** `migrate_notification_targets_v16` on an existing database. `found` is what its inspection sees,
        `checks` and `verified` are the verdicts of the validation inside the rewrite and of the one after
        it. `backup` is the content the backup holds and `seen` what a restore finds. */
    method MigrateV16(apply: bool, found: Inspection, checks: bool, verified: bool)
      returns (r: Outcome, ghost backup: Image, ghost seen: Image)
      requires committed == Current() && (found.v15 && !marked ==> UniquePerChannel(deliveries))
      modifies this
      ensures committed == Current()
      ensures r.NotRequested? <==> !apply
      ensures r.AlreadyMigrated? <==> apply && old(marked) && found.schemaReady
      ensures apply && (if old(marked) then !found.schemaReady else !found.v15 || found.workers > 0 || !found.v15Valid) ==>
        r.Refused?
      ensures r.Applied? || r.Failed? || r.RestoreFailed? ==>
        apply && !old(marked) && found.v15 && found.workers == 0 && found.v15Valid
      ensures r.Applied? ==> checks && verified
      ensures r.NotRequested? || r.AlreadyMigrated? || r.Refused? ==> Current() == old(Current())
      ensures quiet && r.Applied? ==>
        checks && verified && marked && TargetsInsertable(old(Contents())) && Migrated(old(Contents()), Contents())
      ensures r.Failed? ==> Current() == backup
      ensures r.RestoreFailed? ==> Current() == backup || Current() == seen
      ensures quiet ==> backup == old(Current())
      ensures quiet && r.RestoreFailed? ==> Current() == backup || Migrated(backup.tables, Contents())
    {
      hide UniquePerChannel, V16Outcome, TargetsInsertable, Migrated;
      backup, seen := Current(), Current();
      if !apply {
        return NotRequested, backup, seen;
      }
      if marked {
        return if found.schemaReady then AlreadyMigrated else Refused, backup, seen;
      }
      if !found.v15 || found.workers > 0 || !found.v15Valid {
        return Refused, backup, seen;
      }
      var saved: bool := *;
      if !saved {
        return Refused, backup, seen;
      }
      var copy := Current();
      OtherWriters(true);
      var prepared: bool := *;
      if prepared {
        ghost var start := Current();
        var refusal := ApplyV16(checks);
        V16Cases(start, checks, refusal, Current(), quiet);
        if refusal.None? {
          OtherWriters(false);
          if verified {
            return Applied, backup, seen;
          }
        }
      }
      seen := Current();
      var restored := Restore(copy);
      r := if restored then Failed else RestoreFailed;
    }
  }

  datatype Inspection = Inspection(schemaReady: bool, v15: bool, v15Valid: bool, workers: nat)

  datatype Outcome =
    | NotRequested
    | AlreadyMigrated
    | Refused          // stopped before or while taking the backup
    | Applied
    | Failed           // stopped after the backup, which has been restored
    | RestoreFailed

  /** The two cases of the outcome, for a caller that knows no more than that nobody else wrote. */
  lemma V16Cases(before: Image, checks: bool, refusal: Option<Abort>, after: Image, quiet: bool)
    requires quiet ==> V16Outcome(before, checks, refusal, after)
    ensures quiet && refusal.None? ==> checks && after.marked && TargetsInsertable(before.tables) && Migrated(before.tables, after.tables)
    ensures quiet && refusal.Some? ==> after == before || Migrated(before.tables, after.tables)
  {
    hide TargetsInsertable, Migrated;
  }

  // ---------------------------------------------------------------- the join of v15

  function JoinRowOf(deliveries: map<DeliveryId, Delivery>, channels: map<ChannelKey, ChannelState>, d: DeliveryId):
    (DeliveryId, Option<ChannelKey>)
    requires d in deliveries
  {
    var k := (deliveries[d].owner, deliveries[d].channel);
    (d, if k in channels then Some(k) else None)
  }

  lemma {:induction false} ImageSize<A, B>(s: set<A>, f: A -> B, image: set<B>)
    requires forall a, b | a in s && b in s :: f(a) == f(b) ==> a == b
    requires image == set a | a in s :: f(a)
    ensures |image| == |s|
    decreases s
  {
    if s != {} {
      var a :| a in s;
      ImageSize(s - {a}, f, image - {f(a)});
    }
  }

  /** The join has one row per delivery, so the row-count guard of v15 cannot fire. */
  lemma JoinKeepsRowCount(deliveries: map<DeliveryId, Delivery>, channels: map<ChannelKey, ChannelState>)
    ensures |JoinRows(deliveries, channels)| == |deliveries|
  {
    var f := d => if d in deliveries then JoinRowOf(deliveries, channels, d) else (d, None);
    var rows := JoinRows(deliveries, channels);
    assert rows == set d | d in deliveries.Keys :: f(d);
    ImageSize(deliveries.Keys, f, rows);
  }

  /** `rebuilt` holds one row for each of the join rows inserted so far. */
  ghost predicate Joined(was: map<DeliveryId, Delivery>, channels: map<ChannelKey, ChannelState>,
                         rows: seq<(DeliveryId, Option<ChannelKey>)>, rebuilt: map<DeliveryId, Delivery>) {
    && rebuilt.Keys <= was.Keys && |rebuilt| == |rows|
    && (forall d :: d in rebuilt <==> d in was && JoinRowOf(was, channels, d) in rows)
    && (forall d | d in rebuilt :: rebuilt[d] == WithGeneration(channels, was[d]))
    && UniquePerChannel(rebuilt)
  }

  /** A row of the same table has the subject and channel of the delivery to be inserted. */
  predicate Conflicts(rebuilt: map<DeliveryId, Delivery>, d: DeliveryId, row: Delivery) {
    exists e :: e in rebuilt && e.Preferred? == d.Preferred? && rebuilt[e].subject == row.subject
                && rebuilt[e].channel == row.channel
  }

  lemma NothingJoined(was: map<DeliveryId, Delivery>, channels: map<ChannelKey, ChannelState>)
    ensures Joined(was, channels, [], map[])
  {
  }

  lemma JoinRowIs(was: map<DeliveryId, Delivery>, channels: map<ChannelKey, ChannelState>,
                  rows: seq<(DeliveryId, Option<ChannelKey>)>, i: nat)
    requires Enumerates(rows, JoinRows(was, channels)) && i < |rows|
    ensures rows[i].0 in was && rows[i] == JoinRowOf(was, channels, rows[i].0)
    ensures rows[i].1.Some? ==> rows[i].1.value in channels
    ensures rows[i] !in rows[..i]
  {
    assert rows[i] in rows;
  }

  lemma JoinRepeats(was: map<DeliveryId, Delivery>, channels: map<ChannelKey, ChannelState>,
                    rows: seq<(DeliveryId, Option<ChannelKey>)>, i: nat, rebuilt: map<DeliveryId, Delivery>)
    requires i < |rows| && Joined(was, channels, rows[..i], rebuilt) && rows[i] !in rows[..i]
    requires rows[i].0 in was && rows[i] == JoinRowOf(was, channels, rows[i].0)
    ensures rows[i].0 !in rebuilt
  {
    hide UniquePerChannel, WithGeneration, JoinRowOf;
  }

  lemma JoinConflicts(was: map<DeliveryId, Delivery>, channels: map<ChannelKey, ChannelState>,
                      rows: seq<(DeliveryId, Option<ChannelKey>)>, rebuilt: map<DeliveryId, Delivery>, d: DeliveryId)
    requires Joined(was, channels, rows, rebuilt) && d in was && d !in rebuilt
    requires Conflicts(rebuilt, d, was[d])
    ensures !UniquePerChannel(was)
  {
    var e :| e in rebuilt && e.Preferred? == d.Preferred? && rebuilt[e].subject == was[d].subject
             && rebuilt[e].channel == was[d].channel;
    assert SameSubject(was, e, d) && was[e].channel == was[d].channel;
  }

  lemma StaysUnique(rebuilt: map<DeliveryId, Delivery>, d: DeliveryId, row: Delivery)
    requires UniquePerChannel(rebuilt) && d !in rebuilt && !Conflicts(rebuilt, d, row)
    ensures UniquePerChannel(rebuilt[d := row])
  {
    var more := rebuilt[d := row];
    forall a, b | a in more && b in more && a != b && SameSubject(more, a, b)
      ensures more[a].channel != more[b].channel
    {
      if a != d && b != d {
        assert SameSubject(rebuilt, a, b);
      }
    }
  }

  lemma JoinOneMore(was: map<DeliveryId, Delivery>, channels: map<ChannelKey, ChannelState>,
                    rows: seq<(DeliveryId, Option<ChannelKey>)>, i: nat, rebuilt: map<DeliveryId, Delivery>)
    requires i < |rows| && Joined(was, channels, rows[..i], rebuilt) && rows[i].0 !in rebuilt
    requires rows[i].0 in was && rows[i] == JoinRowOf(was, channels, rows[i].0)
    requires !Conflicts(rebuilt, rows[i].0, was[rows[i].0])
    ensures Joined(was, channels, rows[..i + 1], rebuilt[rows[i].0 := WithGeneration(channels, was[rows[i].0])])
  {
    var d := rows[i].0;
    var row := WithGeneration(channels, was[d]);
    var more := rebuilt[d := row];
    StaysUnique(rebuilt, d, row);
    hide UniquePerChannel, WithGeneration, Conflicts;
    assert rows[..i + 1] == rows[..i] + [rows[i]];
    assert more.Keys == rebuilt.Keys + {d};
    forall e | e in was ensures e in more <==> JoinRowOf(was, channels, e) in rows[..i + 1] {
      assert JoinRowOf(was, channels, e).0 == e;
    }
  }

  lemma {:induction false} ListingSize<T>(order: seq<T>, keys: set<T>)
    requires Enumerates(order, keys)
    ensures |order| == |keys|
  {
    if order == [] {
      assert forall k :: k !in keys;
      assert keys == {};
    } else {
      var n := |order| - 1;
      var last := order[n];
      assert order == order[..n] + [last];
      ListingSize(order[..n], keys - {last});
    }
  }

  lemma SameSize<K, V>(a: map<K, V>, b: map<K, V>)
    requires a.Keys == b.Keys
    ensures |a| == |b|
  {
    assert |a| == |a.Keys| && |b| == |b.Keys|;
  }

  lemma {:induction false} SubsetOfSameSize<T>(a: set<T>, b: set<T>)
    requires a <= b && |a| == |b|
    ensures a == b
  {
    assert |b - a| == |b| - |a|;
  }

  /** When every join row is inserted every delivery is there again: the counts agree. */
  lemma JoinIsAll(was: map<DeliveryId, Delivery>, channels: map<ChannelKey, ChannelState>,
                  rows: seq<(DeliveryId, Option<ChannelKey>)>, rebuilt: map<DeliveryId, Delivery>)
    requires Enumerates(rows, JoinRows(was, channels)) && Joined(was, channels, rows, rebuilt)
    ensures |rebuilt| == |was| && rebuilt == map d | d in was :: WithGeneration(channels, was[d])
    ensures UniquePerChannel(was)
  {
    hide Enumerates, JoinRows;
    JoinKeepsRowCount(was, channels);
    ListingSize(rows, JoinRows(was, channels));
    assert |rebuilt| == |rebuilt.Keys| && |was| == |was.Keys|;
    SubsetOfSameSize(rebuilt.Keys, was.Keys);
    forall a, b | a in was && b in was && a != b && SameSubject(was, a, b) ensures was[a].channel != was[b].channel {
      assert SameSubject(rebuilt, a, b);
    }
  }

  // ---------------------------------------------------------------- v16

  function RebuiltTable(deliveries: map<DeliveryId, Delivery>, preferred: bool): map<DeliveryId, Delivery> {
    map d | d in deliveries :: if d.Preferred? == preferred then Rebuilt(deliveries[d]) else deliveries[d]
  }

  lemma TablesRebuilt(mapped: map<DeliveryId, Delivery>)
    ensures RebuiltTable(RebuiltTable(mapped, true), false) == map d | d in mapped :: Rebuilt(mapped[d])
    ensures UniquePerTarget(RebuiltTable(RebuiltTable(mapped, true), false)) ==>
      IndexesHold(RebuiltTable(mapped, true), true) && IndexesHold(RebuiltTable(RebuiltTable(mapped, true), false), false)
  {
    var one := RebuiltTable(mapped, true);
    var two := RebuiltTable(one, false);
    assert forall a, b | a in one && b in one :: SameSubject(one, a, b) == SameSubject(two, a, b);
    assert forall a | a in one :: one[a].targetId == two[a].targetId;
    hide Rebuilt;
  }

  ghost predicate TargetsFilled(t: Tables, targets: map<TargetId, Target>, bindings: map<(Owner, TargetId), Binding>) {
    && (exists legacy :: HoldsLegacy(t, Selected(t), legacy) && HoldsPlaceholders(legacy, Orphans(t), targets))
    && HoldsBindings(t, Selected(t), bindings)
  }

  /** Which rows are selected does not depend on targets and bindings left from before. */
  lemma EmptiedReads(t: Tables)
    ensures var e := t.(targets := map[], bindings := map[]);
      && LegacyInsertable(e) == LegacyInsertable(t)
      && PlaceholdersInsertable(e) == PlaceholdersInsertable(t)
      && (forall targets, bindings :: TargetsFilled(e, targets, bindings) == TargetsFilled(t, targets, bindings))
  {
    var e := t.(targets := map[], bindings := map[]);
    assert Selected(e) == Selected(t) by {
      assert forall k :: k in t.channels ==> IsSelected(e, k) == IsSelected(t, k);
    }
    hide IsSelected, IdOf, Selected;
    assert Orphans(e) == Orphans(t);
    forall targets, bindings ensures TargetsFilled(e, targets, bindings) == TargetsFilled(t, targets, bindings) {
      SameHolds(t, e);
      hide HoldsLegacy, HoldsBindings, HoldsPlaceholders;
    }
  }

  lemma SameHolds(t: Tables, e: Tables)
    requires e.settings == t.settings && e.channels == t.channels && Selected(e) == Selected(t)
    ensures forall done, legacy :: HoldsLegacy(e, done, legacy) == HoldsLegacy(t, done, legacy)
    ensures forall done, bindings :: HoldsBindings(e, done, bindings) == HoldsBindings(t, done, bindings)
  {
    assert forall k | k in Selected(t) :: k in t.channels && k.0 in t.settings;
    hide IsSelected, IdOf;
    assert forall k | k in t.channels :: KeyFor(e, k) == KeyFor(t, k);
    assert forall k | k in t.channels && k.0 in t.settings :: LegacyTarget(e, k) == LegacyTarget(t, k);
    assert forall k | k in t.channels :: LegacyBinding(e, k) == LegacyBinding(t, k);
    hide KeyFor, LegacyTarget, LegacyBinding, Selected;
  }

  /** The rows without a legacy target are those of deliveries no selected channel row covers. */
  lemma SameOrphans(t: Tables, legacy: map<TargetId, Target>)
    requires HoldsLegacy(t, Selected(t), legacy)
    ensures OrphanRows(t.deliveries, legacy) == Orphans(t)
    ensures NoPlaceholders(legacy)
    ensures RowsInsertable(legacy, Orphans(t)) <==> PlaceholdersInsertable(t)
  {
    hide IdOf, IsSelected;
    forall d | d in t.deliveries
      ensures (forall i :: i in legacy ==> !IsLegacyFor(legacy[i], KeyOf(t.deliveries[d])))
        <==> (forall k | k in Selected(t) :: KeyFor(t, k) != KeyOf(t.deliveries[d]))
    {
      forall k | k in Selected(t) ensures IsLegacyFor(legacy[IdOf(false, KeyFor(t, k))], KeyFor(t, k)) {
      }
    }
  }

  ghost predicate OnlyMatch(targets: map<TargetId, Target>, key: Key, i: TargetId) {
    && i in targets && targets[i].key == key
    && forall j | j in targets && targets[j].key == key :: j == i
  }

  /** Each delivery has one matching target: the legacy target of its key, or else the placeholder. */
  lemma UniqueMatch(t: Tables, legacy: map<TargetId, Target>, targets: map<TargetId, Target>, d: DeliveryId)
    returns (i: TargetId)
    requires HoldsLegacy(t, Selected(t), legacy) && HoldsPlaceholders(legacy, Orphans(t), targets)
    requires d in t.deliveries
    ensures OnlyMatch(targets, KeyOf(t.deliveries[d]), i)
  {
    hide IdOf, IsSelected;
    var key := KeyOf(t.deliveries[d]);
    if k :| k in Selected(t) && KeyFor(t, k) == key {
      i := IdOf(false, key);
      forall j | j in targets && targets[j].key == key ensures j == i {
        assert j in legacy;
      }
    } else {
      i := IdOf(true, key);
      assert (key, t.deliveries[d].createdAt) in Orphans(t);
    }
  }

  lemma OnlyCandidate(targets: map<TargetId, Target>, key: Key, i: TargetId)
    requires OnlyMatch(targets, key, i)
    ensures Candidates(targets, key) == {i}
  {
  }

  /** With the targets filled, the mapping reaches every delivery and leaves no choice. */
  lemma EveryDeliveryIsMapped(t: Tables, targets: map<TargetId, Target>, bindings: map<(Owner, TargetId), Binding>,
                              mapped: map<DeliveryId, Delivery>)
    requires TargetsFilled(t, targets, bindings) && mapped.Keys == t.deliveries.Keys
    requires forall d | d in mapped :: IsMapped(t.deliveries[d], mapped[d], targets)
    ensures forall d | d in mapped ::
      mapped[d].targetId.Some? && DeliveryMigrated(t.deliveries[d], Rebuilt(mapped[d]), targets)
  {
    var legacy :| HoldsLegacy(t, Selected(t), legacy) && HoldsPlaceholders(legacy, Orphans(t), targets);
    forall d | d in mapped
      ensures mapped[d].targetId.Some? && DeliveryMigrated(t.deliveries[d], Rebuilt(mapped[d]), targets)
    {
      var i := UniqueMatch(t, legacy, targets, d);
      OnlyCandidate(targets, KeyOf(t.deliveries[d]), i);
      hide HoldsLegacy, HoldsPlaceholders, Candidates, Selected, Orphans;
    }
  }

  lemma RebuiltIsMigrated(t: Tables, targets: map<TargetId, Target>, bindings: map<(Owner, TargetId), Binding>,
                          mapped: map<DeliveryId, Delivery>, rebuilt: map<DeliveryId, Delivery>)
    requires TargetsFilled(t, targets, bindings) && mapped.Keys == t.deliveries.Keys
    requires UniquePerChannel(t.deliveries)
    requires rebuilt == map d | d in mapped :: Rebuilt(mapped[d])
    requires forall d | d in mapped :: DeliveryMigrated(t.deliveries[d], Rebuilt(mapped[d]), targets)
    ensures UniquePerTarget(rebuilt)
    ensures Migrated(t, Tables(t.settings, t.channels, rebuilt, targets, bindings))
  {
    hide HoldsLegacy, HoldsPlaceholders, HoldsBindings, Selected, Orphans, UniquePerTarget;
    TargetsKeepUniqueness(t.deliveries, rebuilt, targets);
  }

  /** Uniqueness per channel becomes uniqueness per target, because a delivery's target has its channel. */
  lemma TargetsKeepUniqueness(deliveries: map<DeliveryId, Delivery>, rebuilt: map<DeliveryId, Delivery>,
                              targets: map<TargetId, Target>)
    requires rebuilt.Keys == deliveries.Keys && UniquePerChannel(deliveries)
    requires forall d | d in deliveries :: DeliveryMigrated(deliveries[d], rebuilt[d], targets)
    ensures UniquePerTarget(rebuilt)
  {
    forall a, b | a in rebuilt && b in rebuilt && a != b && SameSubject(rebuilt, a, b)
      ensures rebuilt[a].targetId != rebuilt[b].targetId
    {
      assert SameSubject(deliveries, a, b);
      assert DeliveryMigrated(deliveries[a], rebuilt[a], targets) && DeliveryMigrated(deliveries[b], rebuilt[b], targets);
    }
  }

  /** No target bears a placeholder's name. */
  ghost predicate NoPlaceholders(targets: map<TargetId, Target>) {
    forall i | i in targets :: !targets[i].name.historical
  }

  /** The id of row `i` is not a legacy id nor that of an earlier row. */
  ghost predicate FreshId(legacy: map<TargetId, Target>, rows: seq<(Key, int)>, i: nat)
    requires i < |rows|
  {
    IdOf(true, rows[i].0) !in legacy && forall j | 0 <= j < i :: IdOf(true, rows[j].0) != IdOf(true, rows[i].0)
  }

  ghost predicate RowsInsertable(legacy: map<TargetId, Target>, rows: set<(Key, int)>) {
    && (forall r | r in rows :: IdOf(true, r.0) !in legacy)
    && (forall r, s | r in rows && s in rows && r != s :: IdOf(true, r.0) != IdOf(true, s.0))
  }

  lemma NoRowsDone(legacy: map<TargetId, Target>)
    ensures HoldsPlaceholders(legacy, Members([]), legacy)
  {
  }

  lemma AllFresh(legacy: map<TargetId, Target>, rows: seq<(Key, int)>, found: set<(Key, int)>)
    requires Enumerates(rows, found)
    ensures (forall j | 0 <= j < |rows| :: FreshId(legacy, rows, j)) <==> RowsInsertable(legacy, found)
  {
    hide IdOf;
    if forall j | 0 <= j < |rows| :: FreshId(legacy, rows, j) {
      forall r | r in found ensures IdOf(true, r.0) !in legacy {
        var i :| 0 <= i < |rows| && rows[i] == r;
        assert FreshId(legacy, rows, i);
      }
      forall r, s | r in found && s in found && r != s ensures IdOf(true, r.0) != IdOf(true, s.0) {
        var i :| 0 <= i < |rows| && rows[i] == r;
        var j :| 0 <= j < |rows| && rows[j] == s;
        assert FreshId(legacy, rows, i) && FreshId(legacy, rows, j);
      }
    }
    if RowsInsertable(legacy, found) {
      forall j | 0 <= j < |rows| ensures FreshId(legacy, rows, j) {
        assert rows[j] in rows;
        forall i | 0 <= i < j ensures IdOf(true, rows[i].0) != IdOf(true, rows[j].0) {
          assert rows[i] in rows;
        }
      }
    }
  }

  /** Inserting the next placeholder is refused exactly when its id is taken. */
  lemma NextPlaceholder(legacy: map<TargetId, Target>, rows: seq<(Key, int)>, i: nat, targets: map<TargetId, Target>)
    requires i < |rows| && rows[i] !in rows[..i]
    requires HoldsPlaceholders(legacy, Members(rows[..i]), targets) && NoPlaceholders(legacy)
    ensures var id, target := IdOf(true, rows[i].0), Placeholder(rows[i].0, rows[i].1);
      && (Refusal(targets, id, target).None? <==> FreshId(legacy, rows, i))
      && (id !in targets ==> HoldsPlaceholders(legacy, Members(rows[..i + 1]), targets[id := target]))
  {
    var id, target := IdOf(true, rows[i].0), Placeholder(rows[i].0, rows[i].1);
    TakenId(legacy, rows, i, targets);
    NameIsFree(legacy, rows, i, targets);
    PlaceholderAdded(legacy, Members(rows[..i]), rows[i], targets);
    assert Members(rows[..i + 1]) == Members(rows[..i]) + {rows[i]};
    assert TargetChecks(target);
    hide IdOf, FreshId, NameTaken, NoPlaceholders, HoldsPlaceholders, TargetChecks, Placeholder;
  }

  lemma PlaceholderAdded(legacy: map<TargetId, Target>, done: set<(Key, int)>, r: (Key, int),
                         targets: map<TargetId, Target>)
    requires HoldsPlaceholders(legacy, done, targets)
    ensures var id := IdOf(true, r.0);
      id !in targets ==> HoldsPlaceholders(legacy, done + {r}, targets[id := Placeholder(r.0, r.1)])
  {
    hide IdOf;
  }

  lemma NameIsFree(legacy: map<TargetId, Target>, rows: seq<(Key, int)>, i: nat, targets: map<TargetId, Target>)
    requires i < |rows|
    requires HoldsPlaceholders(legacy, Members(rows[..i]), targets) && NoPlaceholders(legacy)
    ensures NameTaken(targets, Placeholder(rows[i].0, rows[i].1)) ==> IdOf(true, rows[i].0) in targets
  {
    hide IdOf;
  }

  lemma TakenId(legacy: map<TargetId, Target>, rows: seq<(Key, int)>, i: nat, targets: map<TargetId, Target>)
    requires i < |rows|
    requires HoldsPlaceholders(legacy, Members(rows[..i]), targets)
    ensures IdOf(true, rows[i].0) in targets <==> !FreshId(legacy, rows, i)
  {
    hide IdOf;
    var id := IdOf(true, rows[i].0);
    if id in targets && id !in legacy {
      var r :| r in Members(rows[..i]) && id == IdOf(true, r.0);
      var j :| 0 <= j < i && rows[j] == r;
    }
    if j :| 0 <= j < i && IdOf(true, rows[j].0) == id {
      assert rows[j] in Members(rows[..i]);
    }
  }

  lemma NothingMigrated(t: Tables)
    ensures HoldsLegacy(t, Members([]), map[]) && HoldsBindings(t, Members([]), map[]) && Insertable(t, [])
  {
  }

  lemma AllInsertable(t: Tables, rows: seq<ChannelKey>)
    requires Enumerates(rows, Selected(t))
    ensures Insertable(t, rows) <==> LegacyInsertable(t)
  {
    hide IdOf, LegacyTarget;
  }

  lemma LegacyAdded(t: Tables, rows: seq<ChannelKey>, i: nat, targets: map<TargetId, Target>,
                    bindings: map<(Owner, TargetId), Binding>)
    requires Enumerates(rows, Selected(t)) && i < |rows| && rows[i] in Selected(t)
    requires HoldsLegacy(t, Members(rows[..i]), targets) && HoldsBindings(t, Members(rows[..i]), bindings)
    ensures var k := rows[i];
      var id := IdOf(false, KeyFor(t, k));
      id !in targets ==>
        && HoldsLegacy(t, Members(rows[..i + 1]), targets[id := LegacyTarget(t, k)])
        && HoldsBindings(t, Members(rows[..i + 1]), bindings[(k.0, id) := LegacyBinding(t, k)])
  {
    assert Members(rows[..i + 1]) == Members(rows[..i]) + {rows[i]};
    TargetAdded(t, Members(rows[..i]), rows[i], targets);
    BindingAdded(t, Members(rows[..i]), rows[i], targets, bindings);
    hide *;
  }

  lemma TargetAdded(t: Tables, done: set<ChannelKey>, k: ChannelKey, targets: map<TargetId, Target>)
    requires k in Selected(t) && HoldsLegacy(t, done, targets)
    ensures var id := IdOf(false, KeyFor(t, k));
      id !in targets ==> HoldsLegacy(t, done + {k}, targets[id := LegacyTarget(t, k)])
  {
    hide IdOf, LegacyTarget, IsSelected;
  }

  lemma BindingAdded(t: Tables, done: set<ChannelKey>, k: ChannelKey, targets: map<TargetId, Target>,
                     bindings: map<(Owner, TargetId), Binding>)
    requires k in Selected(t) && HoldsLegacy(t, done, targets) && HoldsBindings(t, done, bindings)
    ensures var id := IdOf(false, KeyFor(t, k));
      id !in targets ==> HoldsBindings(t, done + {k}, bindings[(k.0, id) := LegacyBinding(t, k)])
  {
    hide IdOf, LegacyTarget, LegacyBinding, IsSelected;
  }

  /** The channel rows listed so far have valid targets and pairwise distinct ids. */
  ghost predicate Insertable(t: Tables, rows: seq<ChannelKey>) {
    && (forall k | k in rows :: k in Selected(t) && TargetChecks(LegacyTarget(t, k)))
    && (forall k, l | k in rows && l in rows && k != l :: IdOf(false, KeyFor(t, k)) != IdOf(false, KeyFor(t, l)))
  }

  /** Inserting the next legacy target is refused exactly when its row breaks a CHECK or repeats an id. */
  lemma NextLegacy(t: Tables, rows: seq<ChannelKey>, i: nat, targets: map<TargetId, Target>)
    requires Enumerates(rows, Selected(t)) && i < |rows| && rows[i] in Selected(t)
    requires HoldsLegacy(t, Members(rows[..i]), targets)
    requires Insertable(t, rows[..i])
    ensures var k := rows[i];
      Refusal(targets, IdOf(false, KeyFor(t, k)), LegacyTarget(t, k)).None? <==> Insertable(t, rows[..i + 1])
    ensures LegacyInsertable(t) ==> Insertable(t, rows[..i + 1])
  {
    var k := rows[i];
    assert forall l :: l in rows[..i + 1] <==> l in rows[..i] || l == k;
    assert k !in rows[..i];
    LegacyNameIsFree(t, Members(rows[..i]), k, targets);
    hide IdOf, LegacyTarget, NameTaken, IsSelected, TargetChecks;
  }

  lemma LegacyNameIsFree(t: Tables, done: set<ChannelKey>, k: ChannelKey, targets: map<TargetId, Target>)
    requires HoldsLegacy(t, done, targets) && k in Selected(t) && k !in done
    ensures !NameTaken(targets, LegacyTarget(t, k))
  {
    hide IdOf, IsSelected;
  }
}
