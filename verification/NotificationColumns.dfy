/** The v15 and v16 migrations column by column, read off the old rows. */
module NotificationColumns {
  import opened Common
  import opened Notifications
  import opened NotificationMigration
  import opened NotificationTheorems

  // ---------------------------------------------------------------- v15

  /** The channel row of a settings row for its own channel, which takes over its activation and tests. */
  ghost predicate ChosenRow(o: Owner, s: Settings, row: ChannelState) {
    && row.enabled && row.position == 0
    && row.enabledAt == Some(if s.enabledAt.Some? then s.enabledAt.value else s.updatedAt)
    && row.generation == (if s.generation >= 1 then s.generation else 1)
    && row.testStatus == s.testStatus
    && row.testGeneration == (if o.Workspace? then s.testGeneration
                              else if s.testStatus == None then None
                              else Some(if s.generation >= 1 then s.generation else 1))
  }

  /** The row for another channel: disabled, behind the chosen one in the fixed order of channels. */
  ghost predicate SpareRow(o: Owner, c: Channel, row: ChannelState) {
    && !row.enabled && row.enabledAt == None
    && row.position == (if c == Email then 1 else if c == Webhook then 2 else 3)
    && row.generation == (if o.User? then 0 else 1)
    && row.testStatus == None && row.testGeneration == None
  }

  ghost predicate ChannelColumns(t: Tables, o: Owner, c: Channel, row: ChannelState)
    requires o in t.settings
  {
    var s := t.settings[o];
    && row.workspace == s.workspace && row.createdAt == s.createdAt && row.updatedAt == s.updatedAt
    && row.destinationEnv == None && row.destinationDigest == None
    && (if c == s.channel then ChosenRow(o, s, row) else SpareRow(o, c, row))
  }

  lemma ChannelRowColumns(t: Tables, o: Owner, c: Channel)
    requires o in t.settings
    ensures ChannelColumns(t, o, c, ChannelRow(o, t.settings[o], c))
  {
  }

  lemma ChannelTableRows(t: Tables)
    ensures forall o, c :: (o, c) in ChannelTable(t.settings) <==> o in t.settings
    ensures forall o, c | o in t.settings :: ChannelTable(t.settings)[(o, c)] == ChannelRow(o, t.settings[o], c)
  {
    hide ChannelRow;
    forall o: Owner, c: Channel ensures (o, c) in ChannelTable(t.settings) <==> o in t.settings {
      assert c == Email || c == Webhook || c == Telegram;
      assert c in CHANNELS;
    }
  }

  ghost predicate GenerationColumns(channels: map<ChannelKey, ChannelState>, was: Delivery, d: Delivery) {
    var k := (was.owner, was.channel);
    d == was.(channelGeneration := Some(if k in channels then channels[k].generation else 1))
  }

  /** Every settings row has a row for each channel, nobody else has one, and every delivery gets the
      generation of the channel row of its owner, or 1. */
  lemma V15Columns(t: Tables)
    ensures var u := V15(t);
      && u.settings == t.settings && u.targets == t.targets && u.bindings == t.bindings
      && (forall o, c :: (o, c) in u.channels <==> o in t.settings)
      && (forall o, c | o in t.settings :: ChannelColumns(t, o, c, u.channels[(o, c)]))
      && u.deliveries.Keys == t.deliveries.Keys
      && (forall d | d in t.deliveries :: GenerationColumns(u.channels, t.deliveries[d], u.deliveries[d]))
  {
    ChannelTableRows(t);
    hide ChannelTable, ChannelColumns, ChannelRow;
    forall o, c | o in t.settings {
      ChannelRowColumns(t, o, c);
    }
  }

  // ---------------------------------------------------------------- v16: what gets a target

  /** The channel row has a settings row of its workspace, and it is enabled, has a destination or a test, an
      address or webhook in the settings, or some delivery. */
  ghost predicate WorthATarget(t: Tables, o: Owner, c: Channel) {
    && (o, c) in t.channels && o in t.settings && t.settings[o].workspace == t.channels[(o, c)].workspace
    && var row, s := t.channels[(o, c)], t.settings[o];
       || row.enabled || row.destinationEnv != None || row.testStatus != None
       || (c == Email && s.emailAddress != None)
       || (c == Webhook && s.webhookEnv != None)
       || (exists d | d in t.deliveries ::
             t.deliveries[d].workspace == row.workspace && t.deliveries[d].owner == o && t.deliveries[d].channel == c)
  }

  ghost predicate IsFor(target: Target, workspace: string, o: Owner, c: Channel) {
    target.key.workspace == workspace && target.key.owner == o && target.key.channel == c
  }

  /** The destination columns, those of the channel row or, for a webhook without one, those of the settings. */
  ghost predicate DestinationColumns(c: Channel, s: Settings, row: ChannelState, env: Option<string>, digest: Option<string>) {
    if c == Webhook && (row.destinationEnv == None || row.destinationEnv == Some("")) then
      env == s.webhookEnv && digest == s.webhookDigest
    else
      env == row.destinationEnv && digest == row.destinationDigest
  }

  ghost predicate TestColumns(o: Owner, row: ChannelState, target: Target) {
    && target.testStatus == row.testStatus
    && target.testGeneration ==
         (if row.testStatus == None then None
          else if o.Workspace? && row.testGeneration != None && row.testGeneration != Some(0) then row.testGeneration
          else Some(target.configGeneration))
  }

  ghost predicate TargetColumns(o: Owner, c: Channel, s: Settings, row: ChannelState, target: Target) {
    && IsFor(target, row.workspace, o, c)
    && target.name == Name(false, o.Workspace?, c)
    && target.kind == (if o.User? then LegacyUser else LegacyApify)
    && target.enabled == row.enabled && target.enabledAt == (if row.enabled then row.enabledAt else None)
    && target.configGeneration == (if row.generation >= 1 then row.generation else 1)
    && target.activationGeneration == target.configGeneration
    && DestinationColumns(c, s, row, target.destinationEnv, target.destinationDigest)
    && target.provider == (if c == Webhook then Some(s.provider) else None)
    && target.signingEnv == (if c == Webhook then s.signingEnv else None)
    && target.signingDigest == (if c == Webhook then s.signingDigest else None)
    && TestColumns(o, row, target)
    && target.archivedAt == None && target.createdAt == row.createdAt && target.updatedAt == row.updatedAt
  }

  ghost predicate BindingColumns(row: ChannelState, binding: Binding) {
    && binding.workspace == row.workspace && binding.position == row.position
    && binding.enabled == row.enabled && binding.enabledAt == (if row.enabled then row.enabledAt else None)
    && binding.generation == (if row.generation >= 1 then row.generation else 1)
    && binding.createdAt == row.createdAt && binding.updatedAt == row.updatedAt
  }

  /** A disabled target, archived when its delivery was created. */
  ghost predicate PlaceholderColumns(d: Delivery, target: Target) {
    && IsFor(target, d.workspace, d.owner, d.channel)
    && target.name == Name(true, d.owner.Workspace?, d.channel) && target.kind == HistoricalPlaceholder
    && !target.enabled && target.enabledAt == None
    && target.configGeneration == 1 && target.activationGeneration == 0
    && target.destinationEnv == None && target.destinationDigest == None
    && target.provider == (if d.channel == Webhook then Some("legacy_auto") else None)
    && target.signingEnv == None && target.signingDigest == None
    && target.testStatus == None && target.testGeneration == None
    && target.archivedAt == Some(d.createdAt) && target.createdAt == d.createdAt && target.updatedAt == d.createdAt
  }

  /** The text whose digest is the id of a target. */
  ghost function Identity(kind: string, workspace: string, o: Owner, c: Channel): string {
    kind + "\U{1F}" + workspace + "\U{1F}" + (if o.User? then o.id else "") + "\U{1F}"
    + (if c == Email then "email" else if c == Webhook then "webhook" else "telegram")
  }

  ghost function LegacyId(workspace: string, o: Owner, c: Channel): TargetId {
    Ntg(Identity(if o.User? then "legacy_user_v15" else "legacy_apify_v15", workspace, o, c))
  }

  ghost function HistoricalId(workspace: string, o: Owner, c: Channel): TargetId {
    Ntg(Identity(if o.User? then "historical_user_v16" else "historical_apify_v16", workspace, o, c))
  }

  /** No channel row worth a target is for the delivery. */
  ghost predicate Uncovered(t: Tables, d: Delivery) {
    !(WorthATarget(t, d.owner, d.channel) && t.channels[(d.owner, d.channel)].workspace == d.workspace)
  }

  ghost predicate IsLegacyTarget(t: Tables, o: Owner, c: Channel, i: TargetId, target: Target) {
    && WorthATarget(t, o, c)
    && i == LegacyId(t.channels[(o, c)].workspace, o, c)
    && TargetColumns(o, c, t.settings[o], t.channels[(o, c)], target)
  }

  ghost predicate IsPlaceholder(t: Tables, d: DeliveryId, i: TargetId, target: Target) {
    && d in t.deliveries && Uncovered(t, t.deliveries[d])
    && i == HistoricalId(t.deliveries[d].workspace, t.deliveries[d].owner, t.deliveries[d].channel)
    && PlaceholderColumns(t.deliveries[d], target)
  }

  lemma WorthIsSelected(t: Tables, o: Owner, c: Channel)
    ensures WorthATarget(t, o, c) <==> (o, c) in Selected(t)
  {
    if (o, c) in t.channels {
      var key := Key(t.channels[(o, c)].workspace, o, c);
      assert forall d | d in t.deliveries :: KeyOf(t.deliveries[d]) == key <==>
        t.deliveries[d].workspace == key.workspace && t.deliveries[d].owner == o && t.deliveries[d].channel == c;
    }
  }

  lemma IdsAreDigests(workspace: string, o: Owner, c: Channel)
    ensures IdOf(false, Key(workspace, o, c)) == LegacyId(workspace, o, c)
    ensures IdOf(true, Key(workspace, o, c)) == HistoricalId(workspace, o, c)
  {
  }

  lemma LegacyIsTarget(t: Tables, o: Owner, c: Channel)
    requires (o, c) in Selected(t)
    ensures IsLegacyTarget(t, o, c, IdOf(false, KeyFor(t, (o, c))), LegacyTarget(t, (o, c)))
    ensures BindingColumns(t.channels[(o, c)], LegacyBinding(t, (o, c)))
  {
    WorthIsSelected(t, o, c);
    IdsAreDigests(t.channels[(o, c)].workspace, o, c);
    hide Selected, WorthATarget, IdOf, LegacyId;
  }

  lemma UncoveredIsOrphan(t: Tables, d: DeliveryId)
    requires d in t.deliveries
    ensures Uncovered(t, t.deliveries[d]) <==> (KeyOf(t.deliveries[d]), t.deliveries[d].createdAt) in Orphans(t)
    ensures Uncovered(t, t.deliveries[d]) <==> Orphaned(t, d)
  {
    forall o, c {
      WorthIsSelected(t, o, c);
    }
    hide IsSelected, WorthATarget;
    var e := t.deliveries[d];
    if Uncovered(t, e) {
      forall k | k in Selected(t) ensures KeyFor(t, k) != KeyOf(e) {
        assert k == (k.0, k.1);
      }
    } else {
      assert KeyFor(t, (e.owner, e.channel)) == KeyOf(e);
    }
  }

  lemma PlaceholderIsFor(t: Tables, d: DeliveryId)
    requires d in t.deliveries && Uncovered(t, t.deliveries[d])
    ensures IsPlaceholder(t, d, IdOf(true, KeyOf(t.deliveries[d])), Placeholder(KeyOf(t.deliveries[d]), t.deliveries[d].createdAt))
  {
    IdsAreDigests(t.deliveries[d].workspace, t.deliveries[d].owner, t.deliveries[d].channel);
    hide IdOf, HistoricalId, Uncovered;
  }

  // ---------------------------------------------------------------- v16: the rewritten tables

  ghost predicate DeliveryColumns(was: Delivery, d: Delivery, targets: map<TargetId, Target>) {
    && d.targetId.Some? && d.targetId.value in targets
    && IsFor(targets[d.targetId.value], was.workspace, was.owner, was.channel)
    && (forall i | i in targets && IsFor(targets[i], was.workspace, was.owner, was.channel) :: i == d.targetId.value)
    && d.targetName == Some(targets[d.targetId.value].name)
    && d.workspace == was.workspace && d.owner == was.owner && d.subject == was.subject && d.channel == was.channel
    && d.createdAt == was.createdAt && d.columns == was.columns
    && d.configGeneration == (if was.channelGeneration.Some? && was.channelGeneration.value >= 1 then was.channelGeneration.value else 1)
    && d.bindingGeneration == d.configGeneration
    && d.activationGeneration == (if was.channelGeneration.Some? && was.channelGeneration.value >= 0 then was.channelGeneration.value else 0)
    && d.channelGeneration == (if was.channelGeneration.Some? then was.channelGeneration else Some(if was.owner.User? then 0 else 1))
  }

  /** The rows worth a target have it, with a binding, and the uncovered deliveries have a placeholder. */
  ghost predicate HasTargets(t: Tables, u: Tables) {
    && (forall o, c | WorthATarget(t, o, c) ::
          var i := LegacyId(t.channels[(o, c)].workspace, o, c);
          && i in u.targets && IsLegacyTarget(t, o, c, i, u.targets[i])
          && (o, i) in u.bindings && BindingColumns(t.channels[(o, c)], u.bindings[(o, i)]))
    && (forall d | d in t.deliveries && Uncovered(t, t.deliveries[d]) ::
          HistoricalId(t.deliveries[d].workspace, t.deliveries[d].owner, t.deliveries[d].channel) in u.targets)
  }

  /** And there are no others. */
  ghost predicate NoOtherTargets(t: Tables, u: Tables) {
    && (forall i | i in u.targets ::
          || (exists o, c :: IsLegacyTarget(t, o, c, i, u.targets[i]))
          || (exists d :: IsPlaceholder(t, d, i, u.targets[i])))
    && (forall o, i | (o, i) in u.bindings ::
          exists c :: WorthATarget(t, o, c) && i == LegacyId(t.channels[(o, c)].workspace, o, c))
  }

  lemma RowHasTarget(t: Tables, u: Tables, o: Owner, c: Channel)
    requires Migrated(t, u) && WorthATarget(t, o, c)
    ensures var i := LegacyId(t.channels[(o, c)].workspace, o, c);
      && i in u.targets && IsLegacyTarget(t, o, c, i, u.targets[i])
      && (o, i) in u.bindings && BindingColumns(t.channels[(o, c)], u.bindings[(o, i)])
  {
    WorthIsSelected(t, o, c);
    assert (o, c) in t.channels;
    hide WorthATarget, IsLegacyTarget, BindingColumns, LegacyTarget, LegacyBinding, IdOf, LegacyId, IsSelected, Orphans,
      DeliveryMigrated, UniquePerTarget, Placeholder;
    var legacy :| HoldsLegacy(t, Selected(t), legacy) && HoldsPlaceholders(legacy, Orphans(t), u.targets);
    LegacyIsTarget(t, o, c);
    IdsAreDigests(t.channels[(o, c)].workspace, o, c);
  }

  lemma UncoveredHasPlaceholder(t: Tables, u: Tables, d: DeliveryId)
    requires Migrated(t, u) && d in t.deliveries && Uncovered(t, t.deliveries[d])
    ensures HistoricalId(t.deliveries[d].workspace, t.deliveries[d].owner, t.deliveries[d].channel) in u.targets
  {
    UncoveredIsOrphan(t, d);
    hide HoldsLegacy, HoldsBindings, IdOf, HistoricalId, Selected, Orphans, Uncovered, DeliveryMigrated, UniquePerTarget, Placeholder;
    var legacy :| HoldsLegacy(t, Selected(t), legacy) && HoldsPlaceholders(legacy, Orphans(t), u.targets);
    var e := t.deliveries[d];
    IdsAreDigests(e.workspace, e.owner, e.channel);
    assert (KeyOf(e), e.createdAt) in Orphans(t);
  }

  lemma MigratedHasTargets(t: Tables, u: Tables)
    requires Migrated(t, u)
    ensures HasTargets(t, u)
  {
    hide Migrated, IsLegacyTarget, BindingColumns, LegacyId, HistoricalId, Uncovered;
    forall o, c | WorthATarget(t, o, c) {
      RowHasTarget(t, u, o, c);
    }
    forall d | d in t.deliveries && Uncovered(t, t.deliveries[d]) {
      UncoveredHasPlaceholder(t, u, d);
    }
  }

  lemma TargetHasRow(t: Tables, u: Tables, i: TargetId)
    requires Migrated(t, u) && i in u.targets
    ensures (exists o, c :: IsLegacyTarget(t, o, c, i, u.targets[i])) || (exists d :: IsPlaceholder(t, d, i, u.targets[i]))
  {
    var legacy :| HoldsLegacy(t, Selected(t), legacy) && HoldsPlaceholders(legacy, Orphans(t), u.targets);
    hide HoldsBindings, IsLegacyTarget, IsPlaceholder, LegacyTarget, IdOf, Selected, Orphans, Uncovered, DeliveryMigrated,
      UniquePerTarget, Placeholder;
    if i in legacy {
      var k :| k in Selected(t) && i == IdOf(false, KeyFor(t, k));
      assert k == (k.0, k.1);
      LegacyIsTarget(t, k.0, k.1);
    } else {
      var r :| r in Orphans(t) && i == IdOf(true, r.0);
      var d := OrphanOf(t, r);
      UncoveredIsOrphan(t, d);
      PlaceholderIsFor(t, d);
    }
  }

  lemma BindingHasRow(t: Tables, u: Tables, o: Owner, i: TargetId)
    requires Migrated(t, u) && (o, i) in u.bindings
    ensures exists c :: WorthATarget(t, o, c) && i == LegacyId(t.channels[(o, c)].workspace, o, c)
  {
    hide HoldsLegacy, HoldsPlaceholders, IdOf, LegacyId, IsSelected, Orphans, DeliveryMigrated, UniquePerTarget, LegacyBinding;
    var k :| k in Selected(t) && (o, i) == (k.0, IdOf(false, KeyFor(t, k)));
    assert k == (o, k.1);
    WorthIsSelected(t, o, k.1);
    IdsAreDigests(t.channels[k].workspace, o, k.1);
    assert WorthATarget(t, o, k.1);
  }

  lemma MigratedHasNoOther(t: Tables, u: Tables)
    requires Migrated(t, u)
    ensures NoOtherTargets(t, u)
  {
    hide Migrated, WorthATarget, IsLegacyTarget, IsPlaceholder, LegacyId;
    forall i | i in u.targets {
      TargetHasRow(t, u, i);
    }
    forall o, i | (o, i) in u.bindings {
      BindingHasRow(t, u, o, i);
    }
  }

  /** A migrated database holds exactly these targets and bindings, and each delivery points at its own. */
  lemma V16Columns(t: Tables, u: Tables)
    requires Migrated(t, u)
    ensures u.settings == t.settings && u.channels == t.channels
    ensures HasTargets(t, u) && NoOtherTargets(t, u)
    ensures u.deliveries.Keys == t.deliveries.Keys
    ensures forall d | d in t.deliveries :: DeliveryColumns(t.deliveries[d], u.deliveries[d], u.targets)
  {
    MigratedHasTargets(t, u);
    MigratedHasNoOther(t, u);
    hide HasTargets, NoOtherTargets, HoldsLegacy, HoldsPlaceholders, HoldsBindings, UniquePerTarget, DeliveryColumns;
    forall d | d in t.deliveries ensures DeliveryColumns(t.deliveries[d], u.deliveries[d], u.targets) {
      DeliveryIsMigrated(t.deliveries[d], u.deliveries[d], u.targets);
    }
  }

  lemma DeliveryIsMigrated(was: Delivery, d: Delivery, targets: map<TargetId, Target>)
    requires DeliveryMigrated(was, d, targets)
    ensures DeliveryColumns(was, d, targets)
  {
    assert forall i | i in targets :: IsFor(targets[i], was.workspace, was.owner, was.channel) <==> targets[i].key == KeyOf(was);
  }

  // ---------------------------------------------------------------- when the rewrite completes

  /** The destination a target would get, and the signing columns of a webhook, come in pairs. */
  ghost predicate SecretsPaired(t: Tables) {
    forall o, c | WorthATarget(t, o, c) ::
      var s, row := t.settings[o], t.channels[(o, c)];
      && (if c == Webhook && (row.destinationEnv == None || row.destinationEnv == Some("")) then
            s.webhookEnv.Some? == s.webhookDigest.Some?
          else row.destinationEnv.Some? == row.destinationDigest.Some?)
      && (c == Webhook ==> s.signingEnv.Some? == s.signingDigest.Some?)
  }

  /** Uncovered deliveries of one workspace, owner and channel were created at one time. */
  ghost predicate OneCreationTime(t: Tables) {
    forall d, e | d in t.deliveries && e in t.deliveries && Uncovered(t, t.deliveries[d]) ::
      var x, y := t.deliveries[d], t.deliveries[e];
      x.workspace == y.workspace && x.owner == y.owner && x.channel == y.channel ==> x.createdAt == y.createdAt
  }

  lemma ChecksArePairs(t: Tables, o: Owner, c: Channel)
    requires (o, c) in Selected(t)
    ensures var s, row := t.settings[o], t.channels[(o, c)];
      TargetChecks(LegacyTarget(t, (o, c))) <==>
      && (if c == Webhook && (row.destinationEnv == None || row.destinationEnv == Some("")) then
            s.webhookEnv.Some? == s.webhookDigest.Some?
          else row.destinationEnv.Some? == row.destinationDigest.Some?)
      && (c == Webhook ==> s.signingEnv.Some? == s.signingDigest.Some?)
  {
  }

  lemma PairsAreSecrets(t: Tables)
    ensures PairedSecrets(t) <==> SecretsPaired(t)
  {
    hide TargetChecks, LegacyTarget, WorthATarget, IsSelected;
    forall o, c {
      WorthIsSelected(t, o, c);
    }
    forall o, c | (o, c) in Selected(t) {
      ChecksArePairs(t, o, c);
    }
    hide Selected;
    assert forall k | k in Selected(t) :: k == (k.0, k.1);
  }

  lemma OneTimeIsCreation(t: Tables)
    ensures OneTimePerOrphan(t) <==> OneCreationTime(t)
  {
    forall d | d in t.deliveries {
      UncoveredIsOrphan(t, d);
    }
    hide Uncovered, Orphaned, Orphans;
  }

  /** The rewrite completes if and only if its checks pass, the secrets are paired and the uncovered deliveries
      of each kind were created at one time; the last two alone decide whether the tables are rewritten. */
  lemma CompletesIff(before: Image, checks: bool, refusal: Option<Abort>, after: Image)
    requires WellKeyed(before.tables) && V16Outcome(before, checks, refusal, after)
    ensures refusal.None? <==> checks && SecretsPaired(before.tables) && OneCreationTime(before.tables)
    ensures SecretsPaired(before.tables) && OneCreationTime(before.tables) ==>
      && HasTargets(before.tables, after.tables) && NoOtherTargets(before.tables, after.tables)
      && after.marked == (checks || before.marked)
    ensures !(SecretsPaired(before.tables) && OneCreationTime(before.tables)) ==> after == before
  {
    PairsAreSecrets(before.tables);
    OneTimeIsCreation(before.tables);
    CommitsIff(before, checks, refusal, after);
    hide WellKeyed, PairedSecrets, SecretsPaired, OneTimePerOrphan, OneCreationTime, Migrated, HasTargets, NoOtherTargets;
    if Migrated(before.tables, after.tables) {
      V16Columns(before.tables, after.tables);
    }
    InsertableIff(before.tables);
  }

  // ---------------------------------------------------------------- v15, then v16

  /** The target of the old channel, as the settings row has it. */
  ghost predicate OldChannelTarget(o: Owner, s: Settings, target: Target) {
    var generation := if s.generation >= 1 then s.generation else 1;
    && IsFor(target, s.workspace, o, s.channel)
    && target.enabled && target.enabledAt == Some(if s.enabledAt.Some? then s.enabledAt.value else s.updatedAt)
    && target.configGeneration == generation && target.activationGeneration == generation
    && target.destinationEnv == (if s.channel == Webhook then s.webhookEnv else None)
    && target.destinationDigest == (if s.channel == Webhook then s.webhookDigest else None)
    && target.provider == (if s.channel == Webhook then Some(s.provider) else None)
    && target.signingEnv == (if s.channel == Webhook then s.signingEnv else None)
    && target.signingDigest == (if s.channel == Webhook then s.signingDigest else None)
    && target.testStatus == s.testStatus
    && target.testGeneration == (if s.testStatus == None then None
                                 else if o.User? || s.testGeneration == None || s.testGeneration == Some(0) then Some(generation)
                                 else s.testGeneration)
    && target.archivedAt == None && target.createdAt == s.createdAt && target.updatedAt == s.updatedAt
  }

  ghost predicate OldChannelBinding(s: Settings, binding: Binding) {
    && binding.workspace == s.workspace && binding.position == 0 && binding.enabled
    && binding.enabledAt == Some(if s.enabledAt.Some? then s.enabledAt.value else s.updatedAt)
    && binding.generation == (if s.generation >= 1 then s.generation else 1)
    && binding.createdAt == s.createdAt && binding.updatedAt == s.updatedAt
  }

  lemma ChosenTarget(o: Owner, s: Settings, row: ChannelState, target: Target, binding: Binding)
    requires ChosenRow(o, s, row) && row.workspace == s.workspace && row.createdAt == s.createdAt && row.updatedAt == s.updatedAt
    requires row.destinationEnv == None && row.destinationDigest == None
    requires TargetColumns(o, s.channel, s, row, target) && BindingColumns(row, binding)
    ensures OldChannelTarget(o, s, target) && OldChannelBinding(s, binding)
  {
  }

  lemma ChosenIsWorth(t: Tables, o: Owner)
    requires o in t.settings
    ensures var v, s := V15(t), t.settings[o];
      && WorthATarget(v, o, s.channel) && v.settings == t.settings
      && ChannelColumns(t, o, s.channel, v.channels[(o, s.channel)])
  {
    V15Columns(t);
    hide V15;
  }

  /** After both migrations each settings row has one enabled binding, and its target carries over the
      destination, signing pair, provider, generation and tests of the settings row. */
  lemma OldChannelSurvives(t: Tables, u: Tables, o: Owner)
    requires Migrated(V15(t), u) && o in t.settings
    ensures var s := t.settings[o];
      var i := LegacyId(s.workspace, o, s.channel);
      && i in u.targets && OldChannelTarget(o, s, u.targets[i])
      && (o, i) in u.bindings && OldChannelBinding(s, u.bindings[(o, i)])
      && forall j | (o, j) in u.bindings && j != i :: !u.bindings[(o, j)].enabled && u.bindings[(o, j)].position > 0
  {
    var v, s := V15(t), t.settings[o];
    V16Columns(v, u);
    V15Columns(t);
    ChosenIsWorth(t, o);
    hide V15, Migrated, LegacyId, WorthATarget, OldChannelTarget, OldChannelBinding;
    var i := LegacyId(s.workspace, o, s.channel);
    ChosenTarget(o, s, v.channels[(o, s.channel)], u.targets[i], u.bindings[(o, i)]);
    forall j | (o, j) in u.bindings && j != i
      ensures !u.bindings[(o, j)].enabled && u.bindings[(o, j)].position > 0
    {
      var c :| WorthATarget(v, o, c) && (o, c) in v.channels && j == LegacyId(v.channels[(o, c)].workspace, o, c);
      assert ChannelColumns(t, o, c, v.channels[(o, c)]);
      assert BindingColumns(v.channels[(o, c)], u.bindings[(o, j)]);
    }
  }
}
