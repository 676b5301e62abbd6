/** The notification tables, and the v15 and v16 migrations that rewrite them.

    The tables of user notifications and of workspace alerts have the same shape and are kept together
    here, keyed by their owner: a user, or a workspace. */
module Notifications {
  import opened Common

  datatype Channel = Email | Webhook | Telegram

  /** The primary key of the settings tables: user_id, or the workspace_id of the alert settings. */
  datatype Owner = User(id: string) | Workspace(id: string)

  datatype Settings = Settings(
    workspace: string, channel: Channel, emailAddress: Option<string>,
    webhookEnv: Option<string>, webhookDigest: Option<string>, provider: string,
    signingEnv: Option<string>, signingDigest: Option<string>,
    enabledAt: Option<int>, generation: int,
    testStatus: Option<string>, testGeneration: Option<int>, createdAt: int, updatedAt: int)

  /** A row of a channel table; the key is (owner, channel). */
  datatype ChannelState = ChannelState(
    workspace: string, position: nat, enabled: bool, enabledAt: Option<int>, generation: int,
    destinationEnv: Option<string>, destinationDigest: Option<string>,
    testStatus: Option<string>, testGeneration: Option<int>, createdAt: int, updatedAt: int)

  type ChannelKey = (Owner, Channel)

  datatype DeliveryId = Preferred(id: string) | Alert(id: string)

  /** `subject` is (subscription, article) or (incident, event type); `columns` stands for the columns
      that are only carried along. */
  datatype Delivery = Delivery(
    workspace: string, owner: Owner, subject: (string, string), channel: Channel, createdAt: int,
    columns: int, channelGeneration: Option<int>,
    targetId: Option<TargetId>, targetName: Option<Name>,
    configGeneration: int, activationGeneration: int, bindingGeneration: int)

  /** What a delivery must agree on with its target. */
  datatype Key = Key(workspace: string, owner: Owner, channel: Channel)

  /** `ntg_` and a digest of the identity text; the digest is taken to be injective. */
  datatype TargetId = Ntg(identity: string)

  /** The fixed names the migration writes; normalization and case folding keep all of them apart. */
  datatype Name = Name(historical: bool, shared: bool, channel: Channel)

  datatype SecretKind = LegacyUser | LegacyApify | HistoricalPlaceholder

  datatype Target = Target(
    key: Key, name: Name, enabled: bool, enabledAt: Option<int>,
    configGeneration: int, activationGeneration: int,
    destinationEnv: Option<string>, destinationDigest: Option<string>, kind: SecretKind,
    provider: Option<string>, signingEnv: Option<string>, signingDigest: Option<string>,
    testStatus: Option<string>, testGeneration: Option<int>,
    archivedAt: Option<int>, createdAt: int, updatedAt: int)

  datatype Binding = Binding(
    workspace: string, position: nat, enabled: bool, enabledAt: Option<int>, generation: int,
    createdAt: int, updatedAt: int)

  datatype Tables = Tables(
    settings: map<Owner, Settings>,
    channels: map<ChannelKey, ChannelState>,
    deliveries: map<DeliveryId, Delivery>,
    targets: map<TargetId, Target>,
    bindings: map<(Owner, TargetId), Binding>)

  const CHANNELS: set<Channel> := {Email, Webhook, Telegram}

  // ---------------------------------------------------------------- v15: one row per channel

  function CanonicalPosition(c: Channel): nat {
    match c
    case Email => 0
    case Webhook => 1
    case Telegram => 2
  }

  /** The row the INSERT ... SELECT writes for a settings row and a channel. */
  function ChannelRow(o: Owner, s: Settings, c: Channel): ChannelState {
    var chosen := c == s.channel;
    ChannelState(
      s.workspace,
      if chosen then 0 else CanonicalPosition(c) + 1,
      chosen,
      if chosen then Some(s.enabledAt.GetOr(s.updatedAt)) else None,
      if chosen then Max(1, s.generation) else if o.User? then 0 else 1,
      None, None,
      if chosen then s.testStatus else None,
      if !chosen then None
      else if o.Workspace? then s.testGeneration
      else if s.testStatus.None? then None else Some(Max(1, s.generation)),
      s.createdAt, s.updatedAt)
  }

  function ChannelTable(settings: map<Owner, Settings>): map<ChannelKey, ChannelState> {
    map o, c | o in settings && c in CHANNELS :: (o, c) := ChannelRow(o, settings[o], c)
  }

  /** The delivery with the generation of its channel row, or 1 when the LEFT JOIN finds none. */
  function WithGeneration(channels: map<ChannelKey, ChannelState>, d: Delivery): Delivery {
    var k := (d.owner, d.channel);
    d.(channelGeneration := Some(if k in channels then channels[k].generation else 1))
  }

  /** The CHECK of the rebuilt settings tables: the signing columns are both there or both missing. */
  predicate SigningPaired(settings: map<Owner, Settings>) {
    forall o | o in settings :: settings[o].signingEnv.Some? == settings[o].signingDigest.Some?
  }

  /** The rows of the LEFT JOIN of a delivery table with its channel table: a delivery with each channel row
      that matches it, or with none. */
  function JoinRows(deliveries: map<DeliveryId, Delivery>, channels: map<ChannelKey, ChannelState>):
    set<(DeliveryId, Option<ChannelKey>)>
  {
    (set d, k | d in deliveries && k in channels && k.0 == deliveries[d].owner && k.1 == deliveries[d].channel
      :: (d, Some(k)))
    + (set d | d in deliveries && (deliveries[d].owner, deliveries[d].channel) !in channels :: (d, None))
  }

  function V15(t: Tables): Tables {
    var channels := ChannelTable(t.settings);
    t.(channels := channels,
       deliveries := map d | d in t.deliveries :: WithGeneration(channels, t.deliveries[d]))
  }

  // ---------------------------------------------------------------- v16: reusable targets

  function KeyOf(d: Delivery): Key {
    Key(d.workspace, d.owner, d.channel)
  }

  function ChannelName(c: Channel): string {
    match c
    case Email => "email"
    case Webhook => "webhook"
    case Telegram => "telegram"
  }

  function KindName(historical: bool, o: Owner): string {
    if historical then (if o.User? then "historical_user_v16" else "historical_apify_v16")
    else if o.User? then "legacy_user_v15" else "legacy_apify_v15"
  }

  const SEPARATOR: string := "\U{1F}"

  /** The owner part of the identity text; a shared target has none. */
  function OwnerText(o: Owner): string {
    if o.User? then o.id else ""
  }

  function IdOf(historical: bool, k: Key): TargetId {
    Ntg(KindName(historical, k.owner) + SEPARATOR + k.workspace + SEPARATOR + OwnerText(k.owner)
        + SEPARATOR + ChannelName(k.channel))
  }

  /** A channel row whose settings row is found and that has anything worth a target. */
  predicate IsSelected(t: Tables, k: ChannelKey)
    requires k in t.channels
  {
    var (o, c) := k;
    var row := t.channels[k];
    && o in t.settings
    && t.settings[o].workspace == row.workspace
    && (row.enabled || row.destinationEnv.Some? || row.testStatus.Some?
        || (c == Email && t.settings[o].emailAddress.Some?)
        || (c == Webhook && t.settings[o].webhookEnv.Some?)
        || (exists d :: d in t.deliveries && KeyOf(t.deliveries[d]) == Key(row.workspace, o, c)))
  }

  function Selected(t: Tables): set<ChannelKey> {
    set k | k in t.channels && IsSelected(t, k)
  }

  function KeyFor(t: Tables, k: ChannelKey): Key
    requires k in t.channels
  {
    Key(t.channels[k].workspace, k.0, k.1)
  }

  function LegacyTarget(t: Tables, k: ChannelKey): Target
    requires k in t.channels && k.0 in t.settings
  {
    var (o, c) := k;
    var row, s := t.channels[k], t.settings[o];
    var generation := Max(1, row.generation);
    var fallback := c == Webhook && row.destinationEnv.GetOr("") == "";
    Target(
      KeyFor(t, k), Name(false, o.Workspace?, c), row.enabled, if row.enabled then row.enabledAt else None,
      generation, generation,
      if fallback then s.webhookEnv else row.destinationEnv,
      if fallback then s.webhookDigest else row.destinationDigest,
      if o.User? then LegacyUser else LegacyApify,
      if c == Webhook then Some(s.provider) else None,
      if c == Webhook then s.signingEnv else None,
      if c == Webhook then s.signingDigest else None,
      row.testStatus,
      if row.testStatus.None? then None
      else if o.User? then Some(generation)
      else Some(if row.testGeneration.GetOr(0) == 0 then generation else row.testGeneration.value),
      None, row.createdAt, row.updatedAt)
  }

  function LegacyBinding(t: Tables, k: ChannelKey): Binding
    requires k in t.channels
  {
    var row := t.channels[k];
    Binding(row.workspace, row.position, row.enabled, if row.enabled then row.enabledAt else None,
            Max(1, row.generation), row.createdAt, row.updatedAt)
  }

  function Placeholder(k: Key, createdAt: int): Target {
    Target(k, Name(true, k.owner.Workspace?, k.channel), false, None, 1, 0, None, None, HistoricalPlaceholder,
           if k.channel == Webhook then Some("legacy_auto") else None, None, None, None, None,
           Some(createdAt), createdAt, createdAt)
  }

  predicate IsLegacyFor(target: Target, k: Key) {
    target.key == k && target.kind == (if k.owner.User? then LegacyUser else LegacyApify)
  }

  /** The SELECT DISTINCT rows of deliveries without a legacy target. The creation time is one of the
      selected columns. */
  function OrphanRows(deliveries: map<DeliveryId, Delivery>, targets: map<TargetId, Target>): set<(Key, int)> {
    set d | d in deliveries
            && (forall i :: i in targets ==> !IsLegacyFor(targets[i], KeyOf(deliveries[d])))
      :: (KeyOf(deliveries[d]), deliveries[d].createdAt)
  }

  /** The CHECK constraints of the targets table. */
  predicate TargetChecks(target: Target) {
    && target.destinationEnv.Some? == target.destinationDigest.Some?
    && target.signingEnv.Some? == target.signingDigest.Some?
    && target.provider.Some? == (target.key.channel == Webhook)
    && (target.key.channel != Webhook ==> target.signingEnv.None? && target.signingDigest.None?)
  }

  /** UNIQUE(workspace, scope, owner, name): NULL owners never collide, so only private names can. */
  predicate NameTaken(targets: map<TargetId, Target>, target: Target) {
    target.key.owner.User?
    && exists i :: i in targets && targets[i].name == target.name
                   && targets[i].key.workspace == target.key.workspace
                   && targets[i].key.owner == target.key.owner
  }

  datatype Abort =
    | DuplicateTarget | CheckViolated | DuplicateName | Unmapped | DuplicateDelivery | RowsLost | ValidationFailed

  function Refusal(targets: map<TargetId, Target>, id: TargetId, target: Target): Option<Abort> {
    if id in targets then Some(DuplicateTarget)
    else if !TargetChecks(target) then Some(CheckViolated)
    else if NameTaken(targets, target) then Some(DuplicateName)
    else None
  }

  /** The targets ORDER BY ... LIMIT 1 may return: the legacy ones when there are any. */
  function Candidates(targets: map<TargetId, Target>, k: Key): set<TargetId> {
    var matching := set i | i in targets && targets[i].key == k;
    var legacy := set i | i in matching && IsLegacyFor(targets[i], k);
    if legacy != {} then legacy else matching
  }

  /** The delivery the UPDATE leaves, when the two sub-selects return `id` and the name of `named`. */
  function Mapped(d: Delivery, id: Option<TargetId>, name: Option<Name>): Delivery {
    d.(targetId := id, targetName := name,
       configGeneration := Max(1, d.channelGeneration.GetOr(1)),
       activationGeneration := Max(0, d.channelGeneration.GetOr(0)),
       bindingGeneration := Max(1, d.channelGeneration.GetOr(1)))
  }

  /** The copy into the rebuilt table: a missing channel generation becomes the column's default. */
  function Rebuilt(d: Delivery): Delivery {
    d.(channelGeneration := Some(d.channelGeneration.GetOr(if d.owner.User? then 0 else 1)))
  }

  /** Two rows of the same table with the same (subscription, article) or (incident, event type). */
  predicate SameSubject(deliveries: map<DeliveryId, Delivery>, a: DeliveryId, b: DeliveryId)
    requires a in deliveries && b in deliveries
  {
    a.Preferred? == b.Preferred? && deliveries[a].subject == deliveries[b].subject
  }

  /** The unique index of the rebuilt table on (subject, target). */
  predicate UniquePerTarget(deliveries: map<DeliveryId, Delivery>) {
    forall a, b | a in deliveries && b in deliveries && a != b && SameSubject(deliveries, a, b)
      :: deliveries[a].targetId != deliveries[b].targetId
  }

  /** The two partial unique indexes of a rebuilt table: on (subject, target), and on (subject, channel) for
      rows without a target. */
  predicate IndexesHold(deliveries: map<DeliveryId, Delivery>, preferred: bool) {
    forall a, b | a in deliveries && b in deliveries && a != b && a.Preferred? == preferred
                  && SameSubject(deliveries, a, b) && deliveries[a].targetId == deliveries[b].targetId
      :: deliveries[a].targetId.None? && deliveries[a].channel != deliveries[b].channel
  }

  /** The unique constraint of v15 on (subject, channel). */
  predicate UniquePerChannel(deliveries: map<DeliveryId, Delivery>) {
    forall a, b | a in deliveries && b in deliveries && a != b && SameSubject(deliveries, a, b)
      :: deliveries[a].channel != deliveries[b].channel
  }

  // ---------------------------------------------------------------- what v16 must produce

  /** `targets` holds the legacy targets of exactly the channel rows in `done`. */
  ghost predicate HoldsLegacy(t: Tables, done: set<ChannelKey>, targets: map<TargetId, Target>) {
    && done <= Selected(t)
    && (forall k | k in done ::
          IdOf(false, KeyFor(t, k)) in targets && targets[IdOf(false, KeyFor(t, k))] == LegacyTarget(t, k))
    && (forall i | i in targets :: exists k :: k in done && i == IdOf(false, KeyFor(t, k)))
  }

  ghost predicate HoldsBindings(t: Tables, done: set<ChannelKey>, bindings: map<(Owner, TargetId), Binding>) {
    && done <= Selected(t)
    && (forall k | k in done ::
          && (k.0, IdOf(false, KeyFor(t, k))) in bindings
          && bindings[(k.0, IdOf(false, KeyFor(t, k)))] == LegacyBinding(t, k))
    && (forall b | b in bindings :: exists k :: k in done && b == (k.0, IdOf(false, KeyFor(t, k))))
  }

  /** `targets` holds `legacy` and the placeholders of exactly the rows in `done`. */
  ghost predicate HoldsPlaceholders(legacy: map<TargetId, Target>, done: set<(Key, int)>,
                                    targets: map<TargetId, Target>) {
    && legacy.Keys <= targets.Keys
    && (forall i | i in legacy :: targets[i] == legacy[i])
    && (forall r | r in done :: IdOf(true, r.0) in targets && targets[IdOf(true, r.0)] == Placeholder(r.0, r.1))
    && (forall i | i in targets :: i in legacy || exists r :: r in done && i == IdOf(true, r.0))
  }

  /** The delivery has exactly one matching target, points at it, and keeps its old columns. */
  ghost predicate DeliveryMigrated(d: Delivery, m: Delivery, targets: map<TargetId, Target>) {
    && m.targetId.Some? && m.targetId.value in targets
    && targets[m.targetId.value].key == KeyOf(d)
    && (forall i | i in targets && targets[i].key == KeyOf(d) :: i == m.targetId.value)
    && m == Rebuilt(Mapped(d, m.targetId, Some(targets[m.targetId.value].name)))
  }

  /** What the mapping UPDATE may make of a delivery; its two sub-selects each return some candidate. */
  ghost predicate IsMapped(d: Delivery, m: Delivery, targets: map<TargetId, Target>) {
    var found := Candidates(targets, KeyOf(d));
    if found == {} then m == Mapped(d, None, None)
    else exists i, j :: i in found && j in found && m == Mapped(d, Some(i), Some(targets[j].name))
  }

  /** Keys of deliveries that no selected channel row covers. */
  ghost function Orphans(t: Tables): set<(Key, int)> {
    set d | d in t.deliveries && (forall k | k in Selected(t) :: KeyFor(t, k) != KeyOf(t.deliveries[d]))
      :: (KeyOf(t.deliveries[d]), t.deliveries[d].createdAt)
  }

  ghost predicate Migrated(t: Tables, u: Tables) {
    && u.settings == t.settings && u.channels == t.channels
    && (exists legacy :: HoldsLegacy(t, Selected(t), legacy) && HoldsPlaceholders(legacy, Orphans(t), u.targets))
    && HoldsBindings(t, Selected(t), u.bindings)
    && u.deliveries.Keys == t.deliveries.Keys
    && (forall d | d in t.deliveries :: DeliveryMigrated(t.deliveries[d], u.deliveries[d], u.targets))
    && UniquePerTarget(u.deliveries)
  }

  // ---------------------------------------------------------------- when v16 can insert its targets

  ghost predicate LegacyInsertable(t: Tables) {
    && (forall k | k in Selected(t) :: TargetChecks(LegacyTarget(t, k)))
    && (forall k, l | k in Selected(t) && l in Selected(t) && k != l ::
          IdOf(false, KeyFor(t, k)) != IdOf(false, KeyFor(t, l)))
  }

  ghost predicate PlaceholdersInsertable(t: Tables) {
    && (forall r, s | r in Orphans(t) && s in Orphans(t) && r != s :: IdOf(true, r.0) != IdOf(true, s.0))
    && (forall r, k | r in Orphans(t) && k in Selected(t) :: IdOf(true, r.0) != IdOf(false, KeyFor(t, k)))
  }

  ghost predicate TargetsInsertable(t: Tables) {
    LegacyInsertable(t) && PlaceholdersInsertable(t)
  }

  // ---------------------------------------------------------------- the database and its transactions

  /** The content of the database: the tables, and whether the v16 marker is set. */
  datatype Image = Image(tables: Tables, marked: bool)

  /** What the v16 rewrite does when nobody else writes. A refused insert rolls everything back. Otherwise
      the tables are rewritten for good, whatever the checks say, and only the marker depends on them. */
  ghost predicate V16Outcome(before: Image, checks: bool, refusal: Option<Abort>, after: Image) {
    if !TargetsInsertable(before.tables) then refusal.Some? && after == before
    else
      && (refusal.None? <==> checks)
      && Migrated(before.tables, after.tables)
      && after.marked == (checks || before.marked)
  }
}
