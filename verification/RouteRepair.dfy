/** The v15 repair that deletes the YouTube profile routes which carry no evidence. */
module RouteRepair {
  import opened Common

  datatype RouteId = RouteId(workspace: nat, id: nat)

  /** A route profile; `others` stands for the columns the repair does not look at. */
  datatype Profile = Profile(
    key: nat, platform: string, target: string, capability: string, generation: nat, updatedAt: int, others: int)

  datatype Slot = Slot(candidate: Option<nat>, revision: Option<nat>)

  datatype Run = Run(route: RouteId, stage: string, queries: int, candidates: int)

  /** `payloadRun` is the run_id in the payload, None where the payload is no valid JSON or has none. */
  datatype Job = Job(workspace: nat, kind: string, payloadRun: Option<nat>, status: string)

  datatype Settings = Settings(
    enabled: int, provider: string, model: string, secret: Option<nat>, generation: nat, updatedAt: int)

  /** The tables the repair only reads: rows by their id, each with the route, or the workspace and route
      key, that it belongs to. A revision names its workspace and candidate. */
  datatype Evidence = Evidence(
    candidates: map<(nat, nat), nat>, revisions: map<nat, (nat, nat)>,
    bindings: map<nat, RouteId>, validations: map<nat, RouteId>, attempts: map<nat, (nat, nat)>,
    health: map<nat, (nat, nat)>, observations: map<nat, RouteId>, runRevisions: set<(nat, nat, nat)>)

  datatype Tables = Tables(
    profiles: map<RouteId, Profile>, slots: map<(RouteId, nat), Slot>, routes: set<(nat, nat)>,
    runs: map<nat, Run>, jobs: map<nat, Job>, settings: map<nat, Settings>, evidence: Evidence)

  datatype Error = SlotsInUse | EvidenceExists(kind: string) | DiscoveryWork | DiscoveryRevisions | JobActive | NoChannel

  datatype Counts = Counts(routes: nat, slots: nat, runs: nat, jobs: nat, bump: nat, settings: nat)

  const TERMINAL_STAGES := {"awaiting_canary_approval", "blocked", "blocked_ai_unavailable", "cancelled",
                            "candidate_shortfall", "completed", "failed"}
  const TERMINAL_STATUSES := {"succeeded", "failed", "partial", "cancelled"}

  // ---------------------------------------------------------------- the queries

  predicate Unsupported(p: Profile) {
    p.platform == "youtube" && p.target == "profile" && p.capability == "items"
  }

  predicate IsChannel(p: Profile) {
    p.platform == "youtube" && p.target == "channel" && p.capability == "items"
  }

  function UnsupportedRoutes(t: Tables): set<RouteId> {
    set r | r in t.profiles && Unsupported(t.profiles[r])
  }

  function ChannelRoutes(t: Tables, workspace: nat): set<RouteId> {
    set r | r in t.profiles && r.workspace == workspace && IsChannel(t.profiles[r])
  }

  function SlotsOf(t: Tables, r: RouteId): set<(RouteId, nat)> {
    set s | s in t.slots && s.0 == r
  }

  function RunsOf(t: Tables, r: RouteId): set<nat> {
    set k | k in t.runs && t.runs[k].route == r
  }

  predicate Discovers(j: Job, workspace: nat, runs: set<nat>) {
    j.workspace == workspace && j.kind == "apify_actor_discovery" && j.payloadRun.Some? && j.payloadRun.value in runs
  }

  function JobsOf(t: Tables, r: RouteId): set<nat> {
    set j | j in t.jobs && Discovers(t.jobs[j], r.workspace, RunsOf(t, r))
  }

  /** The seven counting queries, in their order; the first that finds a row names the evidence. */
  function EvidenceOf(e: Evidence, r: RouteId, key: nat): Option<string> {
    var owner := (r.workspace, key);
    if exists c | c in e.candidates :: c.0 == r.workspace && e.candidates[c] == key then Some("candidate")
    else if exists v | v in e.revisions ::
        e.revisions[v].0 == r.workspace && e.revisions[v] in e.candidates && e.candidates[e.revisions[v]] == key
      then Some("revision")
    else if r in e.bindings.Values then Some("binding")
    else if r in e.validations.Values then Some("validation")
    else if owner in e.attempts.Values then Some("attempt_or_fee")
    else if owner in e.health.Values then Some("target_health")
    else if r in e.observations.Values then Some("metadata_observation")
    else None
  }

  /** The second query never decides: the candidate of a revision it finds has been counted by the first. */
  lemma RevisionNeverDecides(e: Evidence, r: RouteId, key: nat)
    ensures EvidenceOf(e, r, key) != Some("revision")
  {
    forall v | v in e.revisions && e.revisions[v].0 == r.workspace && e.revisions[v] in e.candidates
        && e.candidates[e.revisions[v]] == key
      ensures EvidenceOf(e, r, key) == Some("candidate")
    {
      var c := e.revisions[v];
      assert c in e.candidates && c.0 == r.workspace && e.candidates[c] == key;
    }
  }

  predicate IdleRun(run: Run) {
    run.stage in TERMINAL_STAGES && run.queries == 0 && run.candidates == 0
  }

  predicate HasRevisions(e: Evidence, workspace: nat, run: nat) {
    exists a | a in e.runRevisions :: a.0 == workspace && a.1 == run
  }

  predicate EmptySlots(t: Tables, r: RouteId) {
    |SlotsOf(t, r)| == 3 && forall s | s in SlotsOf(t, r) :: t.slots[s] == Slot(None, None)
  }

  predicate IdleRuns(t: Tables, r: RouteId) {
    forall k | k in RunsOf(t, r) :: IdleRun(t.runs[k]) && !HasRevisions(t.evidence, r.workspace, k)
  }

  predicate IdleJobs(t: Tables, r: RouteId) {
    forall j | j in JobsOf(t, r) :: t.jobs[j].status in TERMINAL_STATUSES
  }

  /** The route has three empty slots, no evidence and no discovery left to do. */
  predicate Removable(t: Tables, r: RouteId)
    requires r in t.profiles
  {
    EmptySlots(t, r) && EvidenceOf(t.evidence, r, t.profiles[r].key).None? && IdleRuns(t, r) && IdleJobs(t, r)
  }

  /** What the repair of one route needs: its own checks, and the one channel route to carry the bump. */
  predicate Repairable(t: Tables, r: RouteId)
    requires r in t.profiles
  {
    Removable(t, r) && |ChannelRoutes(t, r.workspace)| == 1
  }

  /** The run with the lowest id of those that still have work or revisions. */
  ghost predicate FirstOffender(t: Tables, r: RouteId, k: nat) {
    && k in RunsOf(t, r) && !(IdleRun(t.runs[k]) && !HasRevisions(t.evidence, r.workspace, k))
    && forall l | l in RunsOf(t, r) && l < k :: IdleRun(t.runs[l]) && !HasRevisions(t.evidence, r.workspace, l)
  }

  /** The check that stops the repair of the route is this one, and all before it pass. */
  ghost predicate Obstacle(t: Tables, r: RouteId, e: Error)
    requires r in t.profiles
  {
    match e
    case SlotsInUse => !EmptySlots(t, r)
    case EvidenceExists(kind) => EmptySlots(t, r) && EvidenceOf(t.evidence, r, t.profiles[r].key) == Some(kind)
    case DiscoveryWork => WithoutEvidence(t, r) && exists k :: FirstOffender(t, r, k) && !IdleRun(t.runs[k])
    case DiscoveryRevisions => WithoutEvidence(t, r) && exists k :: FirstOffender(t, r, k) && IdleRun(t.runs[k])
    case JobActive => WithoutEvidence(t, r) && IdleRuns(t, r) && !IdleJobs(t, r)
    case NoChannel => Removable(t, r) && |ChannelRoutes(t, r.workspace)| != 1
  }

  predicate WithoutEvidence(t: Tables, r: RouteId)
    requires r in t.profiles
  {
    EmptySlots(t, r) && EvidenceOf(t.evidence, r, t.profiles[r].key).None?
  }

  // ---------------------------------------------------------------- one route

  function Bumped(profiles: map<RouteId, Profile>, workspace: nat, bump: nat, stamp: int): map<RouteId, Profile> {
    map k | k in profiles ::
      if k.workspace == workspace && IsChannel(profiles[k])
      then profiles[k].(generation := profiles[k].generation + bump, updatedAt := stamp) else profiles[k]
  }

  /** The deletions of one route, and the bump of the channel route of its workspace. */
  function Remove(t: Tables, r: RouteId, p: Profile, stamp: int): Tables {
    t.(jobs := t.jobs - JobsOf(t, r),
       runs := t.runs - RunsOf(t, r),
       slots := t.slots - SlotsOf(t, r),
       profiles := Bumped(t.profiles - {r}, r.workspace, p.generation + 1, stamp),
       routes := t.routes - {(r.workspace, p.key)})
  }

  predicate NeedsReset(s: Settings) {
    s.enabled != 0 || s.provider != "" || s.model != "" || s.secret.Some?
  }

  function SettingsToReset(settings: map<nat, Settings>): set<nat> {
    set w | w in settings && NeedsReset(settings[w])
  }

  function ResetAll(settings: map<nat, Settings>, stamp: int): map<nat, Settings> {
    map w | w in settings ::
      if NeedsReset(settings[w]) then Settings(0, "", "", None, settings[w].generation + 1, stamp) else settings[w]
  }

  /** All listed routes, one after the other; `rows` are the profiles as first fetched. */
  function RemoveAll(t: Tables, rows: map<RouteId, Profile>, order: seq<RouteId>, stamp: int): Tables
    requires forall r | r in order :: r in rows
  {
    if order == [] then t
    else
      var last := order[|order| - 1];
      Remove(RemoveAll(t, rows, order[..|order| - 1], stamp), last, rows[last], stamp)
  }

  function Bump(rows: map<RouteId, Profile>, order: seq<RouteId>): nat
    requires forall r | r in order :: r in rows
  {
    if order == [] then 0 else Bump(rows, order[..|order| - 1]) + rows[order[|order| - 1]].generation + 1
  }

  /** The bump of one workspace. */
  function BumpOf(rows: map<RouteId, Profile>, order: seq<RouteId>, workspace: nat): nat
    requires forall r | r in order :: r in rows
  {
    if order == [] then 0
    else
      var last := order[|order| - 1];
      BumpOf(rows, order[..|order| - 1], workspace) + if last.workspace == workspace then rows[last].generation + 1 else 0
  }

  function Repaired(t: Tables, order: seq<RouteId>, stamp: int): Tables
    requires forall r | r in order :: r in t.profiles
  {
    RemoveAll(t, t.profiles, order, stamp).(settings := ResetAll(t.settings, stamp))
  }

  // ---------------------------------------------------------------- counting

  function CountsOf(t: Tables, r: RouteId, p: Profile): Counts {
    Counts(1, |SlotsOf(t, r)|, |RunsOf(t, r)|, |JobsOf(t, r)|, p.generation + 1, 0)
  }

  function Plus(a: Counts, b: Counts): Counts {
    Counts(a.routes + b.routes, a.slots + b.slots, a.runs + b.runs, a.jobs + b.jobs, a.bump + b.bump, a.settings)
  }

  /** The counters account for every row that is gone, and for every generation. */
  ghost predicate Counted(before: Tables, after: Tables, order: seq<RouteId>, n: Counts)
    requires forall r | r in order :: r in before.profiles
  {
    && n.routes == |order|
    && |before.slots| == |after.slots| + n.slots
    && |before.runs| == |after.runs| + n.runs
    && |before.jobs| == |after.jobs| + n.jobs
    && n.bump == Bump(before.profiles, order)
    && n.settings == 0
  }

  lemma NothingCounted(t: Tables)
    ensures Counted(t, t, [], Counts(0, 0, 0, 0, 0, 0))
  {
  }

  lemma RemovedKeys<K, V>(m: map<K, V>, gone: set<K>)
    requires gone <= m.Keys
    ensures |m| == |m - gone| + |gone|
  {
    assert (m - gone).Keys == m.Keys - gone;
    assert |m| == |m.Keys| && |m - gone| == |(m - gone).Keys|;
  }

  lemma CountOneMore(before: Tables, mid: Tables, order: seq<RouteId>, n: Counts, r: RouteId, p: Profile, stamp: int)
    requires forall k | k in order + [r] :: k in before.profiles
    requires forall k | k in order :: k in before.profiles
    requires Counted(before, mid, order, n) && p == before.profiles[r]
    ensures Counted(before, Remove(mid, r, p, stamp), order + [r], Plus(n, CountsOf(mid, r, p)))
  {
    hide SlotsOf, RunsOf, JobsOf, Bumped;
    assert (order + [r])[..|order|] == order;
    assert SlotsOf(mid, r) <= mid.slots.Keys && RunsOf(mid, r) <= mid.runs.Keys && JobsOf(mid, r) <= mid.jobs.Keys by {
      OwnRows(mid, r);
    }
    RemovedKeys(mid.slots, SlotsOf(mid, r));
    RemovedKeys(mid.runs, RunsOf(mid, r));
    RemovedKeys(mid.jobs, JobsOf(mid, r));
  }

  lemma OwnRows(t: Tables, r: RouteId)
    ensures SlotsOf(t, r) <= t.slots.Keys && RunsOf(t, r) <= t.runs.Keys && JobsOf(t, r) <= t.jobs.Keys
  {
  }

  // ---------------------------------------------------------------- a removal leaves the other routes alone

  /** What the checks of a route look at is the same in both states. */
  ghost predicate SameView(a: Tables, b: Tables, q: RouteId) {
    && a.evidence == b.evidence
    && SlotsOf(a, q) == SlotsOf(b, q) && (forall s | s in SlotsOf(a, q) :: a.slots[s] == b.slots[s])
    && RunsOf(a, q) == RunsOf(b, q) && (forall k | k in RunsOf(a, q) :: a.runs[k] == b.runs[k])
    && JobsOf(a, q) == JobsOf(b, q) && (forall j | j in JobsOf(a, q) :: a.jobs[j] == b.jobs[j])
    && q in a.profiles && q in b.profiles && a.profiles[q] == b.profiles[q]
    && ChannelRoutes(a, q.workspace) == ChannelRoutes(b, q.workspace)
  }

  lemma SameViewSameVerdict(a: Tables, b: Tables, q: RouteId)
    requires SameView(a, b, q)
    ensures Repairable(a, q) == Repairable(b, q)
  {
    hide EvidenceOf, IdleRun, HasRevisions, SlotsOf, RunsOf, JobsOf, ChannelRoutes, TERMINAL_STATUSES;
  }

  /** The listed routes before this one can be repaired, and this is what stops its own repair. */
  ghost predicate StopsAt(t: Tables, order: seq<RouteId>, i: nat, e: Error) {
    && i < |order| && (forall r | r in order[..i + 1] :: r in t.profiles)
    && (forall j | 0 <= j < i :: Repairable(t, order[j])) && Obstacle(t, order[i], e)
  }

  lemma SameViewSameObstacle(a: Tables, b: Tables, q: RouteId, e: Error)
    requires SameView(a, b, q)
    ensures Obstacle(a, q, e) == Obstacle(b, q, e)
  {
    SameViewSameVerdict(a, b, q);
    hide EvidenceOf, IdleRun, HasRevisions, SlotsOf, RunsOf, JobsOf, ChannelRoutes, TERMINAL_STATUSES;
    assert forall k :: FirstOffender(a, q, k) == FirstOffender(b, q, k);
  }

  lemma SameViewTrans(a: Tables, b: Tables, c: Tables, q: RouteId)
    requires SameView(a, b, q) && SameView(b, c, q)
    ensures SameView(a, c, q)
  {
    hide SlotsOf, RunsOf, JobsOf, ChannelRoutes;
  }

  lemma RemoveKeepsSlots(t: Tables, r: RouteId, p: Profile, stamp: int, q: RouteId)
    requires q != r
    ensures SlotsOf(Remove(t, r, p, stamp), q) == SlotsOf(t, q)
    ensures forall s | s in SlotsOf(t, q) :: Remove(t, r, p, stamp).slots[s] == t.slots[s]
  {
    hide Bumped, JobsOf, RunsOf;
  }

  lemma RemoveKeepsRuns(t: Tables, r: RouteId, p: Profile, stamp: int, q: RouteId)
    requires q != r
    ensures RunsOf(Remove(t, r, p, stamp), q) == RunsOf(t, q)
    ensures forall k | k in RunsOf(t, q) :: Remove(t, r, p, stamp).runs[k] == t.runs[k]
  {
    hide Bumped, JobsOf, SlotsOf;
  }

  /** The jobs of two routes are apart, because a run belongs to one route. */
  lemma RemoveKeepsJobs(t: Tables, r: RouteId, p: Profile, stamp: int, q: RouteId)
    requires q != r
    ensures JobsOf(Remove(t, r, p, stamp), q) == JobsOf(t, q)
    ensures forall j | j in JobsOf(t, q) :: Remove(t, r, p, stamp).jobs[j] == t.jobs[j]
  {
    hide Bumped, SlotsOf;
    RemoveKeepsRuns(t, r, p, stamp, q);
    assert RunsOf(t, q) !! RunsOf(t, r);
    assert JobsOf(t, q) !! JobsOf(t, r);
  }

  lemma RemoveKeepsChannels(t: Tables, r: RouteId, p: Profile, stamp: int, q: RouteId)
    requires q != r && q in t.profiles && r in t.profiles && Unsupported(t.profiles[r]) && Unsupported(t.profiles[q])
    ensures var after := Remove(t, r, p, stamp);
      q in after.profiles && after.profiles[q] == t.profiles[q]
      && ChannelRoutes(after, q.workspace) == ChannelRoutes(t, q.workspace)
  {
    hide JobsOf, RunsOf, SlotsOf;
  }

  lemma RemoveKeepsView(t: Tables, r: RouteId, p: Profile, stamp: int, q: RouteId)
    requires q != r && q in t.profiles && r in t.profiles && Unsupported(t.profiles[r]) && Unsupported(t.profiles[q])
    ensures SameView(t, Remove(t, r, p, stamp), q)
  {
    hide JobsOf, RunsOf, SlotsOf, ChannelRoutes, Unsupported, Bumped;
    RemoveKeepsSlots(t, r, p, stamp, q);
    RemoveKeepsRuns(t, r, p, stamp, q);
    RemoveKeepsJobs(t, r, p, stamp, q);
    RemoveKeepsChannels(t, r, p, stamp, q);
  }

  lemma {:induction false} EarlierRemovalsKeepView(t: Tables, order: seq<RouteId>, stamp: int, q: RouteId)
    requires forall r | r in order :: r in UnsupportedRoutes(t)
    requires forall i, j :: 0 <= i < j < |order| ==> order[i] != order[j]
    requires q in UnsupportedRoutes(t) && q !in order
    ensures SameView(t, RemoveAll(t, t.profiles, order, stamp), q)
  {
    hide Remove, Unsupported, SameView;
    if order == [] {
      SameViewRefl(t, q);
    } else {
      var last, before := order[|order| - 1], order[..|order| - 1];
      assert last !in before && forall r | r in before :: r in order;
      var mid := RemoveAll(t, t.profiles, before, stamp);
      EarlierRemovalsKeepView(t, before, stamp, q);
      EarlierRemovalsKeepView(t, before, stamp, last);
      SameViewSameProfile(t, mid, q);
      SameViewSameProfile(t, mid, last);
      RemoveKeepsView(mid, last, t.profiles[last], stamp, q);
      SameViewTrans(t, mid, RemoveAll(t, t.profiles, order, stamp), q);
    }
  }

  lemma SameViewRefl(t: Tables, q: RouteId)
    requires q in t.profiles
    ensures SameView(t, t, q)
  {
  }

  lemma SameViewSameProfile(a: Tables, b: Tables, q: RouteId)
    requires SameView(a, b, q)
    ensures q in a.profiles && q in b.profiles && a.profiles[q] == b.profiles[q]
  {
  }

  // ---------------------------------------------------------------- the repair as the script runs it

  class Catalog {
    var profiles: map<RouteId, Profile>
    var slots: map<(RouteId, nat), Slot>
    var routes: set<(nat, nat)>
    var runs: map<nat, Run>
    var jobs: map<nat, Job>
    var settings: map<nat, Settings>
    const evidence: Evidence

    function Contents(): Tables
      reads this
    {
      Tables(profiles, slots, routes, runs, jobs, settings, evidence)
    }

    constructor (t: Tables)
      ensures Contents() == t
    {
      profiles, slots, routes, runs := t.profiles, t.slots, t.routes, t.runs;
      jobs, settings, evidence := t.jobs, t.settings, t.evidence;
    }

    /** The loop over the discovery runs of a route, ordered by their id. */
    method CheckRuns(r: RouteId, listing: seq<nat>) returns (e: Option<Error>)
      requires Enumerates(listing, RunsOf(Contents(), r)) && forall i, j :: 0 <= i < j < |listing| ==> listing[i] < listing[j]
      ensures e.None? <==> IdleRuns(Contents(), r)
      ensures e.Some? ==> e.value in {DiscoveryWork, DiscoveryRevisions}
      ensures e.Some? ==> exists k :: FirstOffender(Contents(), r, k) && (e.value.DiscoveryWork? <==> !IdleRun(runs[k]))
    {
      hide HasRevisions, IdleRun;
      for i := 0 to |listing|
        invariant forall k | k in listing[..i] :: k in runs && IdleRun(runs[k]) && !HasRevisions(evidence, r.workspace, k)
      {
        assert listing[i] in RunsOf(Contents(), r);
        if !IdleRun(runs[listing[i]]) || HasRevisions(evidence, r.workspace, listing[i]) {
          assert FirstOffender(Contents(), r, listing[i]);
          return Some(if !IdleRun(runs[listing[i]]) then DiscoveryWork else DiscoveryRevisions);
        }
      }
      return None;
    }

    /** All checks of one route. */
    method Check(r: RouteId, p: Profile) returns (e: Option<Error>)
      requires r in profiles && profiles[r].key == p.key
      ensures e.None? <==> Removable(Contents(), r)
      ensures e != Some(NoChannel)
      ensures e.Some? ==> Obstacle(Contents(), r, e.value)
    {
      hide EmptySlots, EvidenceOf, IdleJobs, IdleRuns, RunsOf, FirstOffender, IdleRun;
      if !EmptySlots(Contents(), r) { return Some(SlotsInUse); }
      var found := EvidenceOf(evidence, r, p.key);
      if found.Some? { return Some(EvidenceExists(found.value)); }
      var listing := FetchInOrder(RunsOf(Contents(), r));
      e := CheckRuns(r, listing);
      if e.None? && !IdleJobs(Contents(), r) { return Some(JobActive); }
    }

    /** The deletions and the bump; the channel route is looked for after the deletions. */
    method Delete(r: RouteId, p: Profile, stamp: int) returns (changed: nat)
      requires r in profiles && Unsupported(profiles[r])
      modifies `profiles, `slots, `routes, `runs, `jobs
      ensures Contents() == Remove(old(Contents()), r, p, stamp)
      ensures changed == |ChannelRoutes(old(Contents()), r.workspace)|
    {
      ghost var before := Contents();
      jobs := jobs - JobsOf(Contents(), r);
      runs := runs - RunsOf(Contents(), r);
      slots := slots - SlotsOf(Contents(), r);
      profiles := profiles - {r};
      routes := routes - {(r.workspace, p.key)};
      assert ChannelRoutes(Contents(), r.workspace) == ChannelRoutes(before, r.workspace);
      changed := |ChannelRoutes(Contents(), r.workspace)|;
      profiles := Bumped(profiles, r.workspace, p.generation + 1, stamp);
      assert Contents() == Remove(before, r, p, stamp) by {
        hide JobsOf, RunsOf, SlotsOf, ChannelRoutes, Bumped;
      }
    }

    method ResetSettings(stamp: int) returns (changed: nat)
      modifies `settings
      ensures settings == ResetAll(old(settings), stamp) && changed == |SettingsToReset(old(settings))|
    {
      changed := |SettingsToReset(settings)|;
      settings := map w | w in settings ::
        if NeedsReset(settings[w]) then Settings(0, "", "", None, settings[w].generation + 1, stamp) else settings[w];
    }

    /** One round of the loop, for a fetched row; `n` is what the round adds to the counters. */
    method RepairOne(r: RouteId, p: Profile, stamp: int) returns (e: Option<Error>, n: Counts)
      requires r in profiles && profiles[r] == p && Unsupported(p)
      modifies `profiles, `slots, `routes, `runs, `jobs
      ensures e.None? <==> Repairable(old(Contents()), r)
      ensures e.Some? ==> Obstacle(old(Contents()), r, e.value)
      ensures e.None? ==> Contents() == Remove(old(Contents()), r, p, stamp)
      ensures e.None? ==> n == CountsOf(old(Contents()), r, p)
    {
      hide Removable, Remove, ChannelRoutes, Unsupported, SlotsOf, RunsOf, JobsOf;
      n := CountsOf(Contents(), r, p);
      e := Check(r, p);
      if e.Some? { return; }
      var changed := Delete(r, p, stamp);
      if changed != 1 { return Some(NoChannel), n; }
    }

    /** The loop over the fetched profiles. */
    method RepairRoutes(order: seq<RouteId>, stamp: int) returns (e: Option<Error>, counts: Counts)
      requires Enumerates(order, UnsupportedRoutes(Contents()))
      modifies `profiles, `slots, `routes, `runs, `jobs
      ensures e.None? <==> forall r | r in UnsupportedRoutes(old(Contents())) :: Repairable(old(Contents()), r)
      ensures e.None? ==> Contents() == RemoveAll(old(Contents()), old(profiles), order, stamp)
      ensures e.None? ==> Counted(old(Contents()), Contents(), order, counts)
      ensures e.Some? ==> exists i :: StopsAt(old(Contents()), order, i, e.value)
    {
      hide Obstacle, Repairable, Remove, Unsupported, SameView, CountsOf, Counted, Plus;
      ghost var before := Contents();
      var rows := profiles;
      assert forall r | r in order :: r in UnsupportedRoutes(before);
      counts := Counts(0, 0, 0, 0, 0, 0);
      NothingCounted(before);
      for i := 0 to |order|
        invariant forall r | r in order[..i] :: r in rows
        invariant Contents() == RemoveAll(before, rows, order[..i], stamp)
        invariant Counted(before, Contents(), order[..i], counts)
        invariant forall r | r in order[..i] :: Repairable(before, r)
      {
        var r := order[i];
        assert order[..i + 1] == order[..i] + [r] && order[..i + 1][..i] == order[..i];
        EarlierRemovalsKeepView(before, order[..i], stamp, r);
        SameViewSameVerdict(before, Contents(), r);
        SameViewSameProfile(before, Contents(), r);
        assert Unsupported(rows[r]);
        ghost var mid := Contents();
        var n;
        e, n := RepairOne(r, rows[r], stamp);
        if e.Some? {
          SameViewSameObstacle(before, mid, r, e.value);
          assert forall j | 0 <= j < i :: order[j] in order[..i];
          assert StopsAt(before, order, i, e.value);
          return;
        }
        CountOneMore(before, mid, order[..i], counts, r, rows[r], stamp);
        counts := Plus(counts, n);
      }
      assert order[..|order|] == order;
      e := None;
    }

    /** The repair inside its transaction: an exception leaves every table as it was. */
    method Repair(stamp: int) returns (r: Result<Counts, Error>, ghost order: seq<RouteId>)
      modifies this
      ensures Enumerates(order, UnsupportedRoutes(old(Contents())))
      ensures r.Ok? <==> forall k | k in UnsupportedRoutes(old(Contents())) :: Repairable(old(Contents()), k)
      ensures r.Ok? ==> Contents() == Repaired(old(Contents()), order, stamp)
      ensures r.Ok? ==> Counted(old(Contents()), Contents(), order, r.value.(settings := 0))
      ensures r.Ok? ==> r.value.settings == |SettingsToReset(old(settings))|
      ensures r.Err? ==> Contents() == old(Contents())
      ensures r.Err? ==> exists i :: StopsAt(old(Contents()), order, i, r.error)
    {
      hide StopsAt, Repairable, Unsupported, RemoveAll, ResetAll, SettingsToReset;
      var saved := Contents();
      var listing := Fetch(UnsupportedRoutes(Contents()));
      order := listing;
      var e, counts := RepairRoutes(listing, stamp);
      if e.Some? {
        profiles, slots, routes, runs, jobs := saved.profiles, saved.slots, saved.routes, saved.runs, saved.jobs;
        return Err(e.value), order;
      }
      var changed := ResetSettings(stamp);
      return Ok(counts.(settings := changed)), order;
    }
  }
}
