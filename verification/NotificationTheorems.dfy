/** What the v15 and v16 migrations guarantee, each alone and one after the other. */
module NotificationTheorems {
  import opened Common
  import opened Notifications
  import opened NotificationMigration

  // ---------------------------------------------------------------- target ids

  ghost predicate Plain(s: string) {
    SEPARATOR[0] !in s
  }

  ghost predicate PlainKey(k: Key) {
    Plain(k.workspace) && Plain(OwnerText(k.owner))
  }

  /** Joining plain parts with a separator is injective in the first part and the rest. */
  lemma {:induction false} SplitOnce(a: string, b: string, c: string, d: string)
    requires Plain(a) && Plain(c)
    requires a + SEPARATOR + b == c + SEPARATOR + d
    ensures a == c && b == d
  {
    var x, y := a + SEPARATOR + b, c + SEPARATOR + d;
    assert x[|a|] == SEPARATOR[0] && y[|c|] == SEPARATOR[0];
    assert forall i | 0 <= i < |a| :: x[i] == a[i] && x[i] != SEPARATOR[0];
    assert forall i | 0 <= i < |c| :: y[i] == c[i] && y[i] != SEPARATOR[0];
    assert |a| == |c|;
    assert a == x[..|a|] && c == y[..|c|];
    assert b == x[|a| + 1..] && d == y[|c| + 1..];
  }

  lemma KindsArePlain(historical: bool, o: Owner)
    ensures Plain(KindName(historical, o))
  {
  }

  lemma KindsDiffer(h: bool, o: Owner, g: bool, p: Owner)
    requires KindName(h, o) == KindName(g, p)
    ensures h == g && o.User? == p.User?
  {
    assert |"historical_user_v16"| == 19 && |"historical_apify_v16"| == 20;
    assert |"legacy_user_v15"| == 15 && |"legacy_apify_v15"| == 16;
  }

  lemma ChannelNamesDiffer(a: Channel, b: Channel)
    requires ChannelName(a) == ChannelName(b)
    ensures a == b
  {
    assert |"email"| == 5 && |"webhook"| == 7 && |"telegram"| == 8;
  }

  lemma IdentityText(historical: bool, k: Key)
    ensures IdOf(historical, k).identity ==
      KindName(historical, k.owner) + SEPARATOR
      + (k.workspace + SEPARATOR + (OwnerText(k.owner) + SEPARATOR + ChannelName(k.channel)))
  {
    hide KindName, ChannelName, OwnerText;
  }

  /** Two target ids are equal only for the same kind, workspace, owner and channel; a shared target's
      owner is its workspace. */
  lemma IdsAreInjective(h: bool, a: Key, g: bool, b: Key)
    requires PlainKey(a) && PlainKey(b)
    requires a.owner.Workspace? ==> a.owner.id == a.workspace
    requires b.owner.Workspace? ==> b.owner.id == b.workspace
    requires IdOf(h, a) == IdOf(g, b)
    ensures h == g && a == b
  {
    var ka, kb := KindName(h, a.owner), KindName(g, b.owner);
    var oa, ob := OwnerText(a.owner), OwnerText(b.owner);
    var ca, cb := ChannelName(a.channel), ChannelName(b.channel);
    KindsArePlain(h, a.owner);
    KindsArePlain(g, b.owner);
    IdentityText(h, a);
    IdentityText(g, b);
    hide KindName, ChannelName, IdOf;
    SplitOnce(ka, a.workspace + SEPARATOR + (oa + SEPARATOR + ca), kb, b.workspace + SEPARATOR + (ob + SEPARATOR + cb));
    SplitOnce(a.workspace, oa + SEPARATOR + ca, b.workspace, ob + SEPARATOR + cb);
    SplitOnce(oa, ca, ob, cb);
    KindsDiffer(h, a.owner, g, b.owner);
    ChannelNamesDiffer(a.channel, b.channel);
  }

  // ---------------------------------------------------------------- exactly when v16 commits

  /** Ids contain no separator, and alert rows carry the workspace that owns them. */
  ghost predicate WellKeyed(t: Tables) {
    && (forall k | k in t.channels ::
          && PlainKey(KeyFor(t, k)) && (k.0.Workspace? ==> k.0.id == t.channels[k].workspace))
    && (forall d | d in t.deliveries ::
          var key := KeyOf(t.deliveries[d]);
          PlainKey(key) && (key.owner.Workspace? ==> key.owner.id == key.workspace))
  }

  /** No selected channel row covers the delivery. */
  ghost predicate Orphaned(t: Tables, d: DeliveryId)
    requires d in t.deliveries
  {
    forall k | k in Selected(t) :: KeyFor(t, k) != KeyOf(t.deliveries[d])
  }

  /** Orphaned deliveries of one workspace, owner and channel were all created at the same time. */
  ghost predicate OneTimePerOrphan(t: Tables) {
    forall d, e | d in t.deliveries && e in t.deliveries && Orphaned(t, d)
                  && KeyOf(t.deliveries[d]) == KeyOf(t.deliveries[e])
      :: t.deliveries[d].createdAt == t.deliveries[e].createdAt
  }

  /** The destination and signing columns of every selected row come in pairs. */
  ghost predicate PairedSecrets(t: Tables) {
    forall k | k in Selected(t) :: TargetChecks(LegacyTarget(t, k))
  }

  lemma OrphanRow(t: Tables, d: DeliveryId)
    requires d in t.deliveries && Orphaned(t, d)
    ensures (KeyOf(t.deliveries[d]), t.deliveries[d].createdAt) in Orphans(t)
  {
    hide Selected;
  }

  lemma OrphanOf(t: Tables, r: (Key, int)) returns (d: DeliveryId)
    requires r in Orphans(t)
    ensures d in t.deliveries && Orphaned(t, d)
    ensures r == (KeyOf(t.deliveries[d]), t.deliveries[d].createdAt)
  {
    hide Selected;
    d :| d in t.deliveries && Orphaned(t, d) && r == (KeyOf(t.deliveries[d]), t.deliveries[d].createdAt);
  }

  /** Every insert is accepted exactly when every selected row has paired secrets and no key needs a
      placeholder for deliveries of different creation times: those select the same id twice. */
  lemma InsertableIff(t: Tables)
    requires WellKeyed(t)
    ensures TargetsInsertable(t) <==> PairedSecrets(t) && OneTimePerOrphan(t)
  {
    LegacyIdsDiffer(t);
    if OneTimePerOrphan(t) {
      OneTimeSuffices(t);
    } else {
      OneTimeIsNeeded(t);
    }
  }

  /** The v16 rewrite completes exactly when its checks pass and every insert is accepted, and it keeps the
      rewritten tables exactly when every insert is accepted. */
  lemma CommitsIff(before: Image, checks: bool, refusal: Option<Abort>, after: Image)
    requires WellKeyed(before.tables) && V16Outcome(before, checks, refusal, after)
    ensures refusal.None? <==> checks && PairedSecrets(before.tables) && OneTimePerOrphan(before.tables)
    ensures PairedSecrets(before.tables) && OneTimePerOrphan(before.tables) ==> Migrated(before.tables, after.tables)
    ensures !(PairedSecrets(before.tables) && OneTimePerOrphan(before.tables)) ==> after == before
  {
    hide WellKeyed, PairedSecrets, OneTimePerOrphan, TargetsInsertable, Migrated;
    InsertableIff(before.tables);
  }

  lemma LegacyIdsDiffer(t: Tables)
    requires WellKeyed(t)
    ensures LegacyInsertable(t) <==> PairedSecrets(t)
  {
    forall k, l | k in Selected(t) && l in Selected(t) && k != l
      ensures IdOf(false, KeyFor(t, k)) != IdOf(false, KeyFor(t, l))
    {
      if IdOf(false, KeyFor(t, k)) == IdOf(false, KeyFor(t, l)) {
        IdsAreInjective(false, KeyFor(t, k), false, KeyFor(t, l));
      }
    }
    hide IdOf, LegacyTarget, IsSelected;
  }

  lemma OneTimeSuffices(t: Tables)
    requires WellKeyed(t) && OneTimePerOrphan(t)
    ensures PlaceholdersInsertable(t)
  {
    forall r, s | r in Orphans(t) && s in Orphans(t) && r != s ensures IdOf(true, r.0) != IdOf(true, s.0) {
      var d := OrphanOf(t, r);
      var e := OrphanOf(t, s);
      if IdOf(true, r.0) == IdOf(true, s.0) {
        IdsAreInjective(true, r.0, true, s.0);
      }
    }
    forall r, k | r in Orphans(t) && k in Selected(t) ensures IdOf(true, r.0) != IdOf(false, KeyFor(t, k)) {
      var d := OrphanOf(t, r);
      if IdOf(true, r.0) == IdOf(false, KeyFor(t, k)) {
        IdsAreInjective(true, r.0, false, KeyFor(t, k));
      }
    }
    hide IdOf, Orphans, IsSelected;
  }

  lemma OneTimeIsNeeded(t: Tables)
    requires !OneTimePerOrphan(t)
    ensures !PlaceholdersInsertable(t)
  {
    var d, e :| d in t.deliveries && e in t.deliveries && Orphaned(t, d)
      && KeyOf(t.deliveries[d]) == KeyOf(t.deliveries[e]) && t.deliveries[d].createdAt != t.deliveries[e].createdAt;
    OrphanRow(t, d);
    OrphanRow(t, e);
    hide IdOf, Orphans, Selected;
  }

  // ---------------------------------------------------------------- what a failed rewrite leaves

  lemma SameLegacy(t: Tables, one: map<TargetId, Target>, two: map<TargetId, Target>)
    requires HoldsLegacy(t, Selected(t), one) && HoldsLegacy(t, Selected(t), two)
    ensures one == two
  {
    hide IdOf, KeyFor, LegacyTarget, Selected;
  }

  lemma SamePlaceholders(legacy: map<TargetId, Target>, done: set<(Key, int)>, one: map<TargetId, Target>,
                         two: map<TargetId, Target>)
    requires HoldsPlaceholders(legacy, done, one) && HoldsPlaceholders(legacy, done, two)
    ensures one == two
  {
    hide IdOf, Placeholder;
    assert forall i | i in one :: i in two && two[i] == one[i];
    assert forall i | i in two :: i in one;
  }

  lemma SameBindings(t: Tables, one: map<(Owner, TargetId), Binding>, two: map<(Owner, TargetId), Binding>)
    requires HoldsBindings(t, Selected(t), one) && HoldsBindings(t, Selected(t), two)
    ensures one == two
  {
    hide IdOf, KeyFor, LegacyBinding, Selected;
    assert forall b | b in one :: b in two && two[b] == one[b];
    assert forall b | b in two :: b in one;
  }

  lemma SameDeliveries(was: map<DeliveryId, Delivery>, one: map<DeliveryId, Delivery>, two: map<DeliveryId, Delivery>,
                       targets: map<TargetId, Target>)
    requires one.Keys == was.Keys == two.Keys
    requires forall d | d in was :: DeliveryMigrated(was[d], one[d], targets) && DeliveryMigrated(was[d], two[d], targets)
    ensures one == two
  {
    hide Rebuilt, Mapped, KeyOf;
    forall d | d in was ensures one[d] == two[d] {
      assert DeliveryMigrated(was[d], one[d], targets) && DeliveryMigrated(was[d], two[d], targets);
    }
  }

  /** The rewritten tables are determined by the old ones. */
  lemma RewriteIsDetermined(t: Tables, one: Tables, two: Tables)
    requires Migrated(t, one) && Migrated(t, two)
    ensures one == two
  {
    hide HoldsLegacy, HoldsPlaceholders, HoldsBindings, DeliveryMigrated, Selected, Orphans, UniquePerTarget;
    var a :| HoldsLegacy(t, Selected(t), a) && HoldsPlaceholders(a, Orphans(t), one.targets);
    var b :| HoldsLegacy(t, Selected(t), b) && HoldsPlaceholders(b, Orphans(t), two.targets);
    SameLegacy(t, a, b);
    SamePlaceholders(a, Orphans(t), one.targets, two.targets);
    SameBindings(t, one.bindings, two.bindings);
    SameDeliveries(t.deliveries, one.deliveries, two.deliveries, one.targets);
  }

  /** The delivery points at its one match, with the name of that target and with its own generations. */
  ghost predicate PointsAtMatch(d: Delivery, targets: map<TargetId, Target>) {
    && d.targetId.Some? && OnlyMatch(targets, KeyOf(d), d.targetId.value)
    && d.targetName == Some(targets[d.targetId.value].name)
    && d.channelGeneration.Some?
    && d.configGeneration == Max(1, d.channelGeneration.value)
    && d.activationGeneration == Max(0, d.channelGeneration.value)
    && d.bindingGeneration == Max(1, d.channelGeneration.value)
  }

  /** The tables hold exactly the targets and bindings that the rewrite would fill in, and every delivery
      points at its match. */
  ghost predicate AlreadyRewritten(t: Tables) {
    && (exists legacy :: HoldsLegacy(t, Selected(t), legacy) && HoldsPlaceholders(legacy, Orphans(t), t.targets))
    && HoldsBindings(t, Selected(t), t.bindings)
    && forall d | d in t.deliveries :: PointsAtMatch(t.deliveries[d], t.targets)
  }

  lemma PointsIsMigrated(d: Delivery, targets: map<TargetId, Target>)
    ensures DeliveryMigrated(d, d, targets) <==> PointsAtMatch(d, targets)
  {
  }

  lemma AlreadyStays(t: Tables, u: Tables)
    requires Migrated(t, u)
    ensures u == t <==> AlreadyRewritten(t)
  {
    hide HoldsLegacy, HoldsPlaceholders, HoldsBindings, DeliveryMigrated, PointsAtMatch, Selected, Orphans, UniquePerTarget;
    forall d | d in t.deliveries
      ensures DeliveryMigrated(t.deliveries[d], t.deliveries[d], t.targets) <==> PointsAtMatch(t.deliveries[d], t.targets)
    {
      PointsIsMigrated(t.deliveries[d], t.targets);
    }
    if AlreadyRewritten(t) {
      var a :| HoldsLegacy(t, Selected(t), a) && HoldsPlaceholders(a, Orphans(t), u.targets);
      var b :| HoldsLegacy(t, Selected(t), b) && HoldsPlaceholders(b, Orphans(t), t.targets);
      SameLegacy(t, a, b);
      SamePlaceholders(a, Orphans(t), u.targets, t.targets);
      SameBindings(t, u.bindings, t.bindings);
      SameDeliveries(t.deliveries, u.deliveries, t.deliveries, t.targets);
    }
  }

  /** A rewrite that fails leaves the database as it was if and only if an insert was refused, or the tables
      were rewritten already. */
  lemma UnchangedIff(before: Image, checks: bool, refusal: Option<Abort>, after: Image)
    requires V16Outcome(before, checks, refusal, after) && refusal.Some?
    ensures after == before <==> !TargetsInsertable(before.tables) || AlreadyRewritten(before.tables)
  {
    hide TargetsInsertable, Migrated, AlreadyRewritten;
    if TargetsInsertable(before.tables) {
      AlreadyStays(before.tables, after.tables);
    }
  }

  // ---------------------------------------------------------------- a rewrite that was interrupted

  /** What a process that dies between the commits leaves: the tables of the rewrite, where some deliveries
      may only be mapped and not yet be copied into their rebuilt table. */
  ghost predicate Interrupted(t: Tables, u: Tables, mid: Tables) {
    && mid == u.(deliveries := mid.deliveries)
    && mid.deliveries.Keys == u.deliveries.Keys == t.deliveries.Keys
    && forall d | d in t.deliveries ::
         mid.deliveries[d] == u.deliveries[d]
         || mid.deliveries[d] == u.deliveries[d].(channelGeneration := t.deliveries[d].channelGeneration)
  }

  /** Both commits of the rewrite leave such tables: after the first the user deliveries are rebuilt and the
      alerts mapped only, after the second all are rebuilt. */
  lemma CommitsLeaveInterrupted(t: Tables, mapped: map<DeliveryId, Delivery>, targets: map<TargetId, Target>,
                                bindings: map<(Owner, TargetId), Binding>)
    requires mapped.Keys == t.deliveries.Keys
    requires forall d | d in mapped :: IsMapped(t.deliveries[d], mapped[d], targets)
    ensures var first := RebuiltTable(mapped, true);
      var mid, u := Tables(t.settings, t.channels, first, targets, bindings),
                    Tables(t.settings, t.channels, RebuiltTable(first, false), targets, bindings);
      Interrupted(t, u, mid) && Interrupted(t, u, u)
  {
    hide Candidates;
    forall d | d in mapped ensures mapped[d].channelGeneration == t.deliveries[d].channelGeneration {
      assert IsMapped(t.deliveries[d], mapped[d], targets);
    }
    hide IsMapped;
  }

  /** Tables that agree in settings, channels and the keys and times of their deliveries. */
  ghost predicate SameInput(t: Tables, e: Tables) {
    && e.settings == t.settings && e.channels == t.channels && e.deliveries.Keys == t.deliveries.Keys
    && forall d | d in t.deliveries ::
         KeyOf(e.deliveries[d]) == KeyOf(t.deliveries[d]) && e.deliveries[d].createdAt == t.deliveries[d].createdAt
  }

  lemma SameInputSelects(t: Tables, e: Tables)
    requires SameInput(t, e)
    ensures Selected(e) == Selected(t) && Orphans(e) == Orphans(t)
  {
    assert forall k :: k in t.channels ==> IsSelected(e, k) == IsSelected(t, k);
    hide IsSelected;
    assert Selected(e) == Selected(t);
    hide Selected;
    assert forall k | k in Selected(t) :: KeyFor(e, k) == KeyFor(t, k) by { SelectedKeys(t, e); }
    assert Orphans(e) == Orphans(t);
  }

  lemma SelectedKeys(t: Tables, e: Tables)
    requires e.channels == t.channels
    ensures forall k | k in Selected(t) :: k in t.channels && KeyFor(e, k) == KeyFor(t, k)
  {
    hide IsSelected;
  }

  lemma SameInputInsertable(t: Tables, e: Tables)
    requires SameInput(t, e)
    ensures TargetsInsertable(e) == TargetsInsertable(t)
  {
    SameInputSelects(t, e);
    SelectedKeys(t, e);
    assert forall k | k in Selected(t) :: k.0 in t.settings;
    assert forall k | k in Selected(t) :: LegacyTarget(e, k) == LegacyTarget(t, k);
    hide Selected, Orphans, LegacyTarget, KeyFor, IdOf, TargetChecks;
  }

  lemma MidDelivery(d: Delivery, m: Delivery, e: Delivery, n: Delivery, targets: map<TargetId, Target>)
    requires DeliveryMigrated(d, m, targets) && DeliveryMigrated(e, n, targets)
    requires e == m || e == m.(channelGeneration := d.channelGeneration)
    ensures n == m <==> !(e == m && d.owner.Workspace? && d.channelGeneration.None?)
  {
  }

  lemma SameTargets(t: Tables, u: Tables, mid: Tables, w: Tables)
    requires Migrated(t, u) && Migrated(mid, w) && SameInput(t, mid)
    ensures w.targets == u.targets && w.bindings == u.bindings
  {
    SameInputSelects(t, mid);
    SameHolds(t, mid);
    hide HoldsLegacy, HoldsPlaceholders, HoldsBindings, DeliveryMigrated, Selected, Orphans, UniquePerTarget, SameInput;
    var a :| HoldsLegacy(t, Selected(t), a) && HoldsPlaceholders(a, Orphans(t), u.targets);
    var b :| HoldsLegacy(mid, Selected(mid), b) && HoldsPlaceholders(b, Orphans(mid), w.targets);
    assert HoldsLegacy(t, Selected(t), b) && HoldsBindings(t, Selected(t), w.bindings);
    SameLegacy(t, a, b);
    SamePlaceholders(a, Orphans(t), u.targets, w.targets);
    SameBindings(t, u.bindings, w.bindings);
  }

  /** An alert that was already copied and had come without a channel generation. */
  ghost predicate GainedGeneration(t: Tables, u: Tables, mid: Tables, d: DeliveryId)
    requires d in t.deliveries && d in u.deliveries && d in mid.deliveries
  {
    mid.deliveries[d] == u.deliveries[d] && t.deliveries[d].owner.Workspace? && t.deliveries[d].channelGeneration.None?
  }

  lemma MidDeliveries(t: Tables, u: Tables, mid: Tables, w: Tables)
    requires Migrated(t, u) && Interrupted(t, u, mid) && Migrated(mid, w) && w.targets == u.targets
    ensures w.deliveries.Keys == u.deliveries.Keys == mid.deliveries.Keys == t.deliveries.Keys
    ensures forall d | d in t.deliveries :: w.deliveries[d] == u.deliveries[d] <==> !GainedGeneration(t, u, mid, d)
  {
    hide HoldsLegacy, HoldsPlaceholders, HoldsBindings, DeliveryMigrated, Selected, Orphans, UniquePerTarget;
    forall d | d in t.deliveries
      ensures w.deliveries[d] == u.deliveries[d] <==> !GainedGeneration(t, u, mid, d)
    {
      MidDelivery(t.deliveries[d], u.deliveries[d], mid.deliveries[d], w.deliveries[d], u.targets);
    }
  }

  lemma MigratedKeepsShape(t: Tables, u: Tables)
    requires Migrated(t, u)
    ensures u.settings == t.settings && u.channels == t.channels && u.deliveries.Keys == t.deliveries.Keys
  {
  }

  /** A second rewrite after an interruption is not refused where the first was not, and it ends with the
      same tables if and only if no alert that was already copied had come without a channel generation. */
  lemma SecondRewriteIff(t: Tables, u: Tables, mid: Tables, w: Tables)
    requires Migrated(t, u) && Interrupted(t, u, mid) && Migrated(mid, w)
    ensures TargetsInsertable(mid) == TargetsInsertable(t)
    ensures w == u <==> forall d | d in t.deliveries :: !GainedGeneration(t, u, mid, d)
  {
    assert mid.settings == u.settings && mid.channels == u.channels;
    hide *;
    MigratedKeepsInput(t, u, mid);
    SameInputInsertable(t, mid);
    SameTargets(t, u, mid, w);
    MidDeliveries(t, u, mid, w);
    MigratedKeepsShape(t, u);
    MigratedKeepsShape(mid, w);
    SameMaps(t.deliveries.Keys, w.deliveries, u.deliveries);
  }

  lemma SameMaps<K, V>(keys: set<K>, a: map<K, V>, b: map<K, V>)
    requires a.Keys == b.Keys == keys
    ensures a == b <==> forall k | k in keys :: a[k] == b[k]
  {
  }

  lemma MigratedKeepsInput(t: Tables, u: Tables, mid: Tables)
    requires Migrated(t, u) && Interrupted(t, u, mid)
    ensures SameInput(t, mid)
  {
    hide HoldsLegacy, HoldsPlaceholders, HoldsBindings, Selected, Orphans, UniquePerTarget;
    forall d | d in t.deliveries
      ensures KeyOf(mid.deliveries[d]) == KeyOf(t.deliveries[d]) && mid.deliveries[d].createdAt == t.deliveries[d].createdAt
    {
      assert DeliveryMigrated(t.deliveries[d], u.deliveries[d], u.targets);
    }
  }

  ghost function OneDelivery(): Tables {
    var d := Delivery("w", User("u"), ("s", "a"), Email, 0, 0, None, None, None, 0, 0, 0);
    Tables(map[], map[], map[Preferred("d") := d], map[], map[])
  }

  lemma OneDeliveryIsInsertable()
    ensures TargetsInsertable(OneDelivery()) && UniquePerChannel(OneDelivery().deliveries)
  {
    var t := OneDelivery();
    assert Selected(t) == {};
    assert t.deliveries.Keys == {Preferred("d")};
    hide IdOf, IsSelected, Selected;
    assert forall r, s | r in Orphans(t) && s in Orphans(t) :: r == s;
  }

  /** A failed check alone: one delivery without settings, and the rewrite stays although the run failed. */
  lemma FailedChecksStay(after: Image)
    requires V16Outcome(Image(OneDelivery(), false), false, Some(ValidationFailed), after)
    ensures !after.marked && after.tables != OneDelivery()
    ensures Preferred("d") in after.tables.deliveries && after.tables.deliveries[Preferred("d")].targetId.Some?
  {
    var t := OneDelivery();
    OneDeliveryIsInsertable();
    hide TargetsInsertable, HoldsLegacy, HoldsPlaceholders, HoldsBindings, UniquePerTarget, Selected, Orphans, Rebuilt;
    assert Preferred("d") in t.deliveries && t.deliveries[Preferred("d")].targetId.None?;
    assert DeliveryMigrated(t.deliveries[Preferred("d")], after.tables.deliveries[Preferred("d")], after.tables.targets);
  }

  // ---------------------------------------------------------------- v15

  /** After v15 every settings row has three channel rows; the one on its old channel, and only that
      one, is enabled, its position is below the others, and positions are pairwise distinct. */
  lemma V15EnablesTheOldChannel(t: Tables, o: Owner, c: Channel, e: Channel)
    requires o in t.settings
    ensures var u := V15(t);
      && (o, c) in u.channels && (o, e) in u.channels
      && (u.channels[(o, c)].enabled <==> c == t.settings[o].channel)
      && (c != e ==> u.channels[(o, c)].position != u.channels[(o, e)].position)
      && (u.channels[(o, c)].enabled && c != e ==> u.channels[(o, c)].position < u.channels[(o, e)].position)
  {
  }

  // ---------------------------------------------------------------- v15, then v16

  /** The one enabled binding of a settings row is on its old channel, below all its other bindings. */
  ghost predicate KeepsOldChannel(t: Tables, u: Tables, o: Owner)
    requires o in t.settings
  {
    exists i ::
      && (o, i) in u.bindings && u.bindings[(o, i)].enabled
      && i in u.targets && u.targets[i].key == Key(t.settings[o].workspace, o, t.settings[o].channel)
      && (forall j | (o, j) in u.bindings && j != i ::
            !u.bindings[(o, j)].enabled && u.bindings[(o, i)].position < u.bindings[(o, j)].position)
  }

  ghost predicate DistinctPositions(u: Tables, o: Owner) {
    forall i, j | (o, i) in u.bindings && (o, j) in u.bindings && i != j ::
      u.bindings[(o, i)].position != u.bindings[(o, j)].position
  }

  /** Running v15 and then a v16 that commits leaves each settings row with exactly one enabled binding,
      at the lowest of pairwise distinct positions, on its old channel. */
  lemma V15ThenV16(t: Tables, u: Tables, o: Owner)
    requires Migrated(V15(t), u)
    requires o in t.settings
    ensures KeepsOldChannel(t, u, o)
    ensures DistinctPositions(u, o)
  {
    var i := OldChannelBinding(t, u, o);
    forall j | (o, j) in u.bindings && j != i
      ensures !u.bindings[(o, j)].enabled && u.bindings[(o, i)].position < u.bindings[(o, j)].position
    {
      var c := BoundChannel(t, u, o, j);
      V15EnablesTheOldChannel(t, o, t.settings[o].channel, c);
      hide V15, Migrated, IdOf;
    }
    forall a, b | (o, a) in u.bindings && (o, b) in u.bindings && a != b
      ensures u.bindings[(o, a)].position != u.bindings[(o, b)].position
    {
      var c := BoundChannel(t, u, o, a);
      var e := BoundChannel(t, u, o, b);
      V15EnablesTheOldChannel(t, o, c, e);
      hide V15, Migrated, IdOf;
    }
  }

  lemma OldChannelBinding(t: Tables, u: Tables, o: Owner) returns (i: TargetId)
    requires Migrated(V15(t), u)
    requires o in t.settings
    ensures (o, t.settings[o].channel) in V15(t).channels
    ensures i == IdOf(false, KeyFor(V15(t), (o, t.settings[o].channel)))
    ensures (o, i) in u.bindings && u.bindings[(o, i)].enabled
    ensures u.bindings[(o, i)] == LegacyBinding(V15(t), (o, t.settings[o].channel))
    ensures i in u.targets && u.targets[i].key == Key(t.settings[o].workspace, o, t.settings[o].channel)
  {
    OldChannelIsSelected(t, o);
    hide IdOf, IsSelected, V15, Orphans;
    var v := V15(t);
    var k := (o, t.settings[o].channel);
    i := IdOf(false, KeyFor(v, k));
    var legacy :| HoldsLegacy(v, Selected(v), legacy) && HoldsPlaceholders(legacy, Orphans(v), u.targets);
    assert u.targets[i] == LegacyTarget(v, k);
  }

  lemma OldChannelIsSelected(t: Tables, o: Owner)
    requires o in t.settings
    ensures var v, k := V15(t), (o, t.settings[o].channel);
      && v.settings == t.settings
      && k in v.channels && k in Selected(v)
      && v.channels[k].enabled && v.channels[k].workspace == t.settings[o].workspace
  {
    var v, k := V15(t), (o, t.settings[o].channel);
    assert k.1.Email? || k.1.Webhook? || k.1.Telegram?;
    assert k.1 in CHANNELS;
    assert k in v.channels && v.channels[k].enabled && v.channels[k].workspace == t.settings[o].workspace;
    assert IsSelected(v, k);
  }

  lemma BoundChannel(t: Tables, u: Tables, o: Owner, i: TargetId) returns (c: Channel)
    requires Migrated(V15(t), u)
    requires (o, i) in u.bindings
    ensures (o, c) in V15(t).channels
    ensures i == IdOf(false, KeyFor(V15(t), (o, c)))
    ensures u.bindings[(o, i)] == LegacyBinding(V15(t), (o, c))
  {
    hide IdOf, IsSelected;
    var v := V15(t);
    var k :| k in Selected(v) && (o, i) == (k.0, IdOf(false, KeyFor(v, k)));
    c := k.1;
  }
}
