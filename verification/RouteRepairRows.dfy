/** The YouTube route repair row by row: what it asks of a route, and what every table holds afterwards. */
module RouteRepairRows {
  import opened Common
  import opened RouteRepair
  import opened RouteRepairFacts

  // ---------------------------------------------------------------- what is asked of a route

  ghost predicate ProfileRoute(t: Tables, r: RouteId) {
    r in t.profiles && t.profiles[r].platform == "youtube" && t.profiles[r].target == "profile" && t.profiles[r].capability == "items"
  }

  ghost predicate ChannelRoute(t: Tables, r: RouteId) {
    r in t.profiles && t.profiles[r].platform == "youtube" && t.profiles[r].target == "channel" && t.profiles[r].capability == "items"
  }

  ghost predicate ThreeEmptySlots(t: Tables, r: RouteId) {
    && |set s | s in t.slots && s.0.workspace == r.workspace && s.0.id == r.id| == 3
    && forall s | s in t.slots && s.0.workspace == r.workspace && s.0.id == r.id ::
         t.slots[s].candidate == None && t.slots[s].revision == None
  }

  ghost predicate HasCandidate(e: Evidence, workspace: nat, key: nat) {
    exists c | c in e.candidates :: c.0 == workspace && e.candidates[c] == key
  }

  ghost predicate HasBinding(e: Evidence, workspace: nat, id: nat) {
    exists b | b in e.bindings :: e.bindings[b].workspace == workspace && e.bindings[b].id == id
  }

  ghost predicate HasValidation(e: Evidence, workspace: nat, id: nat) {
    exists v | v in e.validations :: e.validations[v].workspace == workspace && e.validations[v].id == id
  }

  ghost predicate HasAttempt(e: Evidence, workspace: nat, key: nat) {
    exists a | a in e.attempts :: e.attempts[a].0 == workspace && e.attempts[a].1 == key
  }

  ghost predicate HasHealth(e: Evidence, workspace: nat, key: nat) {
    exists h | h in e.health :: e.health[h].0 == workspace && e.health[h].1 == key
  }

  ghost predicate HasObservation(e: Evidence, workspace: nat, id: nat) {
    exists o | o in e.observations :: e.observations[o].workspace == workspace && e.observations[o].id == id
  }

  ghost predicate NoEvidence(e: Evidence, r: RouteId, key: nat) {
    && !HasCandidate(e, r.workspace, key) && !HasBinding(e, r.workspace, r.id) && !HasValidation(e, r.workspace, r.id)
    && !HasAttempt(e, r.workspace, key) && !HasHealth(e, r.workspace, key) && !HasObservation(e, r.workspace, r.id)
  }

  ghost predicate FinishedEmpty(run: Run) {
    && (run.stage == "awaiting_canary_approval" || run.stage == "blocked" || run.stage == "blocked_ai_unavailable"
        || run.stage == "cancelled" || run.stage == "candidate_shortfall" || run.stage == "completed" || run.stage == "failed")
    && run.queries == 0 && run.candidates == 0
  }

  ghost predicate FoundRevision(e: Evidence, workspace: nat, k: nat) {
    exists a | a in e.runRevisions :: a.0 == workspace && a.1 == k
  }

  ghost predicate RunOfRoute(t: Tables, r: RouteId, k: nat) {
    k in t.runs && t.runs[k].route.workspace == r.workspace && t.runs[k].route.id == r.id
  }

  ghost predicate RunsAreOver(t: Tables, r: RouteId) {
    forall k | RunOfRoute(t, r, k) :: FinishedEmpty(t.runs[k]) && !FoundRevision(t.evidence, r.workspace, k)
  }

  /** A discovery job of the workspace whose payload names a run of the route. */
  ghost predicate JobOfRoute(t: Tables, r: RouteId, j: nat) {
    && j in t.jobs && t.jobs[j].workspace == r.workspace && t.jobs[j].kind == "apify_actor_discovery"
    && t.jobs[j].payloadRun.Some? && RunOfRoute(t, r, t.jobs[j].payloadRun.value)
  }

  ghost predicate JobsAreOver(t: Tables, r: RouteId) {
    forall j | JobOfRoute(t, r, j) ::
      var status := t.jobs[j].status;
      status == "succeeded" || status == "failed" || status == "partial" || status == "cancelled"
  }

  ghost predicate OneChannel(t: Tables, workspace: nat) {
    |set c | c in t.profiles && c.workspace == workspace && ChannelRoute(t, c)| == 1
  }

  lemma SlotRows(t: Tables, r: RouteId)
    ensures EmptySlots(t, r) <==> ThreeEmptySlots(t, r)
  {
    assert forall s: (RouteId, nat) :: s.0 == r <==> s.0.workspace == r.workspace && s.0.id == r.id;
    assert SlotsOf(t, r) == set s | s in t.slots && s.0.workspace == r.workspace && s.0.id == r.id;
  }

  /** The evidence named is the first kind that has a row. */
  lemma EvidenceRows(e: Evidence, r: RouteId, key: nat)
    ensures var w := r.workspace;
      EvidenceOf(e, r, key) ==
        if HasCandidate(e, w, key) then Some("candidate")
        else if HasBinding(e, w, r.id) then Some("binding")
        else if HasValidation(e, w, r.id) then Some("validation")
        else if HasAttempt(e, w, key) then Some("attempt_or_fee")
        else if HasHealth(e, w, key) then Some("target_health")
        else if HasObservation(e, w, r.id) then Some("metadata_observation")
        else None
  {
    RevisionNeverDecides(e, r, key);
    assert forall x: RouteId :: x == r <==> x.workspace == r.workspace && x.id == r.id;
    assert forall x: (nat, nat) :: x == (r.workspace, key) <==> x.0 == r.workspace && x.1 == key;
    assert r in e.bindings.Values <==> HasBinding(e, r.workspace, r.id);
    assert r in e.validations.Values <==> HasValidation(e, r.workspace, r.id);
    assert (r.workspace, key) in e.attempts.Values <==> HasAttempt(e, r.workspace, key);
    assert (r.workspace, key) in e.health.Values <==> HasHealth(e, r.workspace, key);
    assert r in e.observations.Values <==> HasObservation(e, r.workspace, r.id);
    assert (exists c | c in e.candidates :: c.0 == r.workspace && e.candidates[c] == key) <==> HasCandidate(e, r.workspace, key);
    hide HasBinding, HasValidation, HasAttempt, HasHealth, HasObservation, HasCandidate;
  }

  lemma RunRow(t: Tables, r: RouteId, k: nat)
    ensures k in RunsOf(t, r) <==> RunOfRoute(t, r, k)
    ensures k in t.runs ==> (IdleRun(t.runs[k]) <==> FinishedEmpty(t.runs[k]))
    ensures HasRevisions(t.evidence, r.workspace, k) <==> FoundRevision(t.evidence, r.workspace, k)
  {
  }

  lemma JobRow(t: Tables, r: RouteId, j: nat)
    ensures j in JobsOf(t, r) <==> JobOfRoute(t, r, j)
  {
    if j in t.jobs && t.jobs[j].payloadRun.Some? {
      RunRow(t, r, t.jobs[j].payloadRun.value);
    }
    hide RunsOf, RunOfRoute;
  }

  lemma RunRows(t: Tables, r: RouteId)
    ensures IdleRuns(t, r) <==> RunsAreOver(t, r)
  {
    forall k: nat
      ensures k in RunsOf(t, r) <==> RunOfRoute(t, r, k)
      ensures k in RunsOf(t, r) ==>
        (IdleRun(t.runs[k]) && !HasRevisions(t.evidence, r.workspace, k)
         <==> FinishedEmpty(t.runs[k]) && !FoundRevision(t.evidence, r.workspace, k))
    {
      RunRow(t, r, k);
    }
    hide RunsOf, IdleRun, FinishedEmpty, HasRevisions, FoundRevision;
    assert forall k: nat | RunOfRoute(t, r, k) :: k in RunsOf(t, r);
  }

  lemma StatusRow(status: string)
    ensures status in TERMINAL_STATUSES <==> status == "succeeded" || status == "failed" || status == "partial" || status == "cancelled"
  {
  }

  lemma JobRows(t: Tables, r: RouteId)
    ensures IdleJobs(t, r) <==> JobsAreOver(t, r)
  {
    forall j {
      JobRow(t, r, j);
    }
    forall status {
      StatusRow(status);
    }
    hide JobsOf, JobOfRoute, TERMINAL_STATUSES;
  }

  lemma ChannelRows(t: Tables, workspace: nat)
    ensures |ChannelRoutes(t, workspace)| == 1 <==> OneChannel(t, workspace)
  {
    assert ChannelRoutes(t, workspace) == set c | c in t.profiles && c.workspace == workspace && ChannelRoute(t, c);
  }

  lemma UnsupportedRows(t: Tables)
    ensures forall r :: r in UnsupportedRoutes(t) <==> ProfileRoute(t, r)
  {
  }

  /** A route can be repaired exactly when it has three empty slots, no evidence of any kind, only finished
      discovery that found nothing, only final jobs, and one channel route beside it. */
  lemma RepairableIff(t: Tables, r: RouteId)
    requires r in t.profiles
    ensures Repairable(t, r) <==>
      && ThreeEmptySlots(t, r) && NoEvidence(t.evidence, r, t.profiles[r].key)
      && RunsAreOver(t, r) && JobsAreOver(t, r) && OneChannel(t, r.workspace)
  {
    SlotRows(t, r);
    EvidenceRows(t.evidence, r, t.profiles[r].key);
    RunRows(t, r);
    JobRows(t, r);
    ChannelRows(t, r.workspace);
    hide EmptySlots, EvidenceOf, IdleRuns, IdleJobs, ChannelRoutes, ThreeEmptySlots, RunsAreOver, JobsAreOver, OneChannel,
      HasCandidate, HasBinding, HasValidation, HasAttempt, HasHealth, HasObservation;
  }

  // ---------------------------------------------------------------- which obstacle is named

  /** The first run, by its id, that is not over decides between the two errors about discovery. */
  ghost predicate FirstOpenRun(t: Tables, r: RouteId, k: nat) {
    && RunOfRoute(t, r, k) && (!FinishedEmpty(t.runs[k]) || FoundRevision(t.evidence, r.workspace, k))
    && forall l: nat | RunOfRoute(t, r, l) && l < k :: FinishedEmpty(t.runs[l]) && !FoundRevision(t.evidence, r.workspace, l)
  }

  ghost predicate NamedEvidence(e: Evidence, r: RouteId, key: nat, kind: string) {
    var w := r.workspace;
    if HasCandidate(e, w, key) then kind == "candidate"
    else if HasBinding(e, w, r.id) then kind == "binding"
    else if HasValidation(e, w, r.id) then kind == "validation"
    else if HasAttempt(e, w, key) then kind == "attempt_or_fee"
    else if HasHealth(e, w, key) then kind == "target_health"
    else HasObservation(e, w, r.id) && kind == "metadata_observation"
  }

  ghost predicate ObstacleAmongRows(t: Tables, r: RouteId, e: Error)
    requires r in t.profiles
  {
    var key := t.profiles[r].key;
    if !ThreeEmptySlots(t, r) then e == SlotsInUse
    else if !NoEvidence(t.evidence, r, key) then e.EvidenceExists? && NamedEvidence(t.evidence, r, key, e.kind)
    else if !RunsAreOver(t, r) then
      || (e == DiscoveryWork && exists k :: FirstOpenRun(t, r, k) && !FinishedEmpty(t.runs[k]))
      || (e == DiscoveryRevisions && exists k :: FirstOpenRun(t, r, k) && FinishedEmpty(t.runs[k]))
    else if !JobsAreOver(t, r) then e == JobActive
    else e == NoChannel && !OneChannel(t, r.workspace)
  }

  lemma FirstOpenRow(t: Tables, r: RouteId, k: nat)
    ensures FirstOffender(t, r, k) <==> FirstOpenRun(t, r, k)
    ensures FirstOpenRun(t, r, k) ==> !RunsAreOver(t, r) && k in t.runs && (IdleRun(t.runs[k]) <==> FinishedEmpty(t.runs[k]))
  {
    forall l: nat
      ensures l in RunsOf(t, r) <==> RunOfRoute(t, r, l)
      ensures RunOfRoute(t, r, l) ==> (IdleRun(t.runs[l]) <==> FinishedEmpty(t.runs[l]))
      ensures HasRevisions(t.evidence, r.workspace, l) <==> FoundRevision(t.evidence, r.workspace, l)
    {
      RunRow(t, r, l);
    }
    hide RunsOf, IdleRun, FinishedEmpty, HasRevisions, FoundRevision;
    assert forall l: nat | RunOfRoute(t, r, l) :: l in RunsOf(t, r);
  }

  /** The error of a repair that stops is the first obstacle found among the rows. */
  lemma ObstacleRows(t: Tables, r: RouteId, e: Error)
    requires r in t.profiles && Obstacle(t, r, e)
    ensures ObstacleAmongRows(t, r, e)
  {
    SlotRows(t, r);
    EvidenceRows(t.evidence, r, t.profiles[r].key);
    RunRows(t, r);
    JobRows(t, r);
    ChannelRows(t, r.workspace);
    if e == DiscoveryWork || e == DiscoveryRevisions {
      var k :| FirstOffender(t, r, k) && (e == DiscoveryWork <==> !IdleRun(t.runs[k]));
      FirstOpenRow(t, r, k);
    }
    hide EmptySlots, EvidenceOf, IdleRuns, IdleJobs, ChannelRoutes, ThreeEmptySlots, RunsAreOver, JobsAreOver, OneChannel,
      HasCandidate, HasBinding, HasValidation, HasAttempt, HasHealth, HasObservation, FirstOffender, FirstOpenRun, IdleRun,
      FinishedEmpty;
  }

  // ---------------------------------------------------------------- what the tables hold afterwards

  /** The channel routes that take over generations are those of a workspace that lost a route. */
  ghost predicate LostRoute(t: Tables, workspace: nat) {
    exists r :: ProfileRoute(t, r) && r.workspace == workspace
  }

  ghost predicate StampedProfiles(t: Tables, u: Tables, order: seq<RouteId>, stamp: int) {
    forall k | k in u.profiles && k in t.profiles ::
      u.profiles[k].updatedAt ==
        if IsChannel(t.profiles[k]) && (exists r | r in order :: r.workspace == k.workspace) then stamp
        else t.profiles[k].updatedAt
  }

  lemma OneMoreStamp(t: Tables, mid: Tables, before: seq<RouteId>, r: RouteId, stamp: int)
    requires r in t.profiles && (forall q | q in before :: q in t.profiles)
    requires StampedProfiles(t, mid, before, stamp) && ProfilesExact(t, mid, before)
    ensures StampedProfiles(t, Remove(mid, r, t.profiles[r], stamp), before + [r], stamp)
  {
    hide SlotsOf, RunsOf, JobsOf, BumpOf;
    assert forall k | k in mid.profiles :: IsChannel(mid.profiles[k]) == IsChannel(t.profiles[k]);
  }

  lemma {:induction false} RemovalIsStamped(t: Tables, order: seq<RouteId>, stamp: int)
    requires Listed(t, order)
    ensures StampedProfiles(t, RemoveAll(t, t.profiles, order, stamp), order, stamp)
  {
    hide Remove, Unsupported, StampedProfiles, ProfilesExact, SlotsExact, RunsExact, JobsExact, RoutesExact;
    if order == [] {
      NothingStamped(t, stamp);
    } else {
      var r, before := order[|order| - 1], order[..|order| - 1];
      assert order == before + [r];
      assert r in order && forall q | q in before :: q in order;
      RemovalIsStamped(t, before, stamp);
      RemovalIsExact(t, before, stamp);
      OneMoreStamp(t, RemoveAll(t, t.profiles, before, stamp), before, r, stamp);
    }
  }

  lemma NothingStamped(t: Tables, stamp: int)
    ensures StampedProfiles(t, t, [], stamp)
  {
  }

  ghost predicate ProfileRows(t: Tables, u: Tables, order: seq<RouteId>, stamp: int)
    requires forall r | r in order :: r in t.profiles
  {
    && (forall k :: k in u.profiles <==> k in t.profiles && !ProfileRoute(t, k))
    && (forall k | k in u.profiles ::
          u.profiles[k] ==
            if ChannelRoute(t, k) && LostRoute(t, k.workspace) then
              t.profiles[k].(generation := t.profiles[k].generation + BumpOf(t.profiles, order, k.workspace), updatedAt := stamp)
            else t.profiles[k])
  }

  /** Slots, runs and discovery jobs of the youtube profile routes are gone, all others are kept. */
  ghost predicate DependentRows(t: Tables, u: Tables) {
    && u.slots == (map s | s in t.slots && !ProfileRoute(t, s.0) :: t.slots[s])
    && u.runs == (map k | k in t.runs && !ProfileRoute(t, t.runs[k].route) :: t.runs[k])
    && u.jobs == (map j | j in t.jobs && (forall r | ProfileRoute(t, r) :: !JobOfRoute(t, r, j)) :: t.jobs[j])
    && u.routes == (set k | k in t.routes && forall r | ProfileRoute(t, r) :: k != (r.workspace, t.profiles[r].key))
  }

  ghost predicate SettingsRows(t: Tables, u: Tables, stamp: int) {
    && u.settings.Keys == t.settings.Keys
    && forall w | w in t.settings ::
         var s := t.settings[w];
         u.settings[w] ==
           if s.enabled != 0 || s.provider != "" || s.model != "" || s.secret != None then
             Settings(0, "", "", None, s.generation + 1, stamp)
           else s
  }

  lemma {:induction false} NoBumpElsewhere(rows: map<RouteId, Profile>, order: seq<RouteId>, workspace: nat)
    requires forall r | r in order :: r in rows && r.workspace != workspace
    ensures BumpOf(rows, order, workspace) == 0
  {
    if order != [] {
      NoBumpElsewhere(rows, order[..|order| - 1], workspace);
      assert order[|order| - 1] in order;
    }
  }

  lemma RepairedProfile(t: Tables, order: seq<RouteId>, stamp: int, k: RouteId)
    requires Enumerates(order, UnsupportedRoutes(t)) && k in RemoveAll(t, t.profiles, order, stamp).profiles
    requires ProfilesExact(t, RemoveAll(t, t.profiles, order, stamp), order)
    requires StampedProfiles(t, RemoveAll(t, t.profiles, order, stamp), order, stamp)
    ensures k in t.profiles
    ensures RemoveAll(t, t.profiles, order, stamp).profiles[k] ==
      if ChannelRoute(t, k) && LostRoute(t, k.workspace) then
        t.profiles[k].(generation := t.profiles[k].generation + BumpOf(t.profiles, order, k.workspace), updatedAt := stamp)
      else t.profiles[k]
  {
    UnsupportedRows(t);
    hide RemoveAll, BumpOf, UnsupportedRoutes;
    assert forall r :: r in order <==> ProfileRoute(t, r);
    hide ProfileRoute;
    if !LostRoute(t, k.workspace) {
      NoBumpElsewhere(t.profiles, order, k.workspace);
    }
  }

  lemma RemainingProfiles(t: Tables, order: seq<RouteId>, stamp: int)
    requires Enumerates(order, UnsupportedRoutes(t))
    requires ProfilesExact(t, RemoveAll(t, t.profiles, order, stamp), order)
    requires StampedProfiles(t, RemoveAll(t, t.profiles, order, stamp), order, stamp)
    ensures ProfileRows(t, RemoveAll(t, t.profiles, order, stamp), order, stamp)
  {
    UnsupportedRows(t);
    var u := RemoveAll(t, t.profiles, order, stamp);
    forall k | k in u.profiles {
      RepairedProfile(t, order, stamp, k);
    }
    hide RemoveAll, BumpOf, StampedProfiles, ProfileRoute, LostRoute, UnsupportedRoutes, ChannelRoute;
  }

  lemma ResetRows(t: Tables, u: Tables, stamp: int)
    requires u.settings == ResetAll(t.settings, stamp)
    ensures SettingsRows(t, u, stamp)
    ensures SettingsToReset(t.settings) == set w | w in t.settings && u.settings[w] != t.settings[w]
  {
    assert forall w | w in t.settings && NeedsReset(t.settings[w]) :: u.settings[w].generation != t.settings[w].generation;
  }

  /** A completed repair leaves exactly these rows, and the settings it counts are those that changed. */
  lemma RepairedRows(t: Tables, order: seq<RouteId>, stamp: int)
    requires Enumerates(order, UnsupportedRoutes(t))
    ensures var u := Repaired(t, order, stamp);
      && ProfileRows(t, u, order, stamp) && DependentRows(t, u) && u.evidence == t.evidence
      && SettingsRows(t, u, stamp)
      && SettingsToReset(t.settings) == set w | w in t.settings && u.settings[w] != t.settings[w]
  {
    assert Listed(t, order);
    RemovalIsExact(t, order, stamp);
    RemovalIsStamped(t, order, stamp);
    var removed, u := RemoveAll(t, t.profiles, order, stamp), Repaired(t, order, stamp);
    RemainingProfiles(t, order, stamp);
    DependentsAre(t, removed, order);
    ResetRows(t, u, stamp);
    hide RemoveAll, Enumerates, UnsupportedRoutes, ResetAll, SettingsToReset, SettingsRows, ProfilesExact, StampedProfiles,
      SlotsExact, RunsExact, JobsExact, RoutesExact;
    SameDependents(t, removed, u);
    SameProfiles(t, removed, u, order, stamp);
  }

  lemma SameProfiles(t: Tables, u: Tables, w: Tables, order: seq<RouteId>, stamp: int)
    requires (forall r | r in order :: r in t.profiles) && ProfileRows(t, u, order, stamp) && w.profiles == u.profiles
    ensures ProfileRows(t, w, order, stamp)
  {
  }

  lemma SameDependents(t: Tables, u: Tables, w: Tables)
    requires DependentRows(t, u) && w.slots == u.slots && w.runs == u.runs && w.jobs == u.jobs && w.routes == u.routes
    ensures DependentRows(t, w)
  {
  }

  lemma DependentsAre(t: Tables, u: Tables, order: seq<RouteId>)
    requires Enumerates(order, UnsupportedRoutes(t)) && OnlyTheseGone(t, u, order)
    ensures DependentRows(t, u)
  {
    UnsupportedRows(t);
    hide UnsupportedRoutes, ProfilesExact;
    assert forall r :: r in order <==> ProfileRoute(t, r);
    hide ProfileRoute;
    forall r, j {
      JobRow(t, r, j);
    }
    hide JobsOf, JobOfRoute;
    assert forall k :: k in u.jobs <==> k in t.jobs && forall r | ProfileRoute(t, r) :: !JobOfRoute(t, r, k);
  }
}
