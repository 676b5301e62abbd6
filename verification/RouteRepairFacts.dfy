/** What a completed repair of the YouTube routes has changed, table by table, and what it has not. */
module RouteRepairFacts {
  import opened Common
  import opened RouteRepair

  /** The listed routes are unsupported ones, each listed once. */
  ghost predicate Listed(t: Tables, order: seq<RouteId>) {
    && (forall r | r in order :: r in UnsupportedRoutes(t))
    && (forall i, j :: 0 <= i < j < |order| ==> order[i] != order[j])
  }

  // ---------------------------------------------------------------- table by table

  ghost predicate SlotsExact(t: Tables, u: Tables, order: seq<RouteId>) {
    u.slots == map s | s in t.slots && s.0 !in order :: t.slots[s]
  }

  ghost predicate RunsExact(t: Tables, u: Tables, order: seq<RouteId>) {
    u.runs == map k | k in t.runs && t.runs[k].route !in order :: t.runs[k]
  }

  ghost predicate JobsExact(t: Tables, u: Tables, order: seq<RouteId>) {
    u.jobs == map j | j in t.jobs && (forall r | r in order :: j !in JobsOf(t, r)) :: t.jobs[j]
  }

  ghost predicate RoutesExact(t: Tables, u: Tables, order: seq<RouteId>)
    requires forall r | r in order :: r in t.profiles
  {
    u.routes == set k | k in t.routes && forall r | r in order :: k != (r.workspace, t.profiles[r].key)
  }

  /** A channel profile rises by the bump of its workspace; every other surviving profile is as it was. */
  ghost predicate ProfilesExact(t: Tables, u: Tables, order: seq<RouteId>)
    requires forall r | r in order :: r in t.profiles
  {
    && (forall k :: k in u.profiles <==> k in t.profiles && k !in order)
    && (forall k | k in u.profiles ::
          if IsChannel(t.profiles[k]) then
            u.profiles[k].(updatedAt := 0) ==
            t.profiles[k].(updatedAt := 0, generation := t.profiles[k].generation + BumpOf(t.profiles, order, k.workspace))
          else u.profiles[k] == t.profiles[k])
  }

  /** Exactly the listed routes are gone, with their slots, runs and jobs. */
  ghost predicate OnlyTheseGone(t: Tables, u: Tables, order: seq<RouteId>)
    requires forall r | r in order :: r in t.profiles
  {
    && SlotsExact(t, u, order) && RunsExact(t, u, order) && JobsExact(t, u, order)
    && RoutesExact(t, u, order) && ProfilesExact(t, u, order)
    && u.evidence == t.evidence
  }

  lemma NothingGone(t: Tables)
    ensures OnlyTheseGone(t, t, [])
  {
    assert t.slots == map s | s in t.slots && s.0 !in [] :: t.slots[s];
  }

  lemma OneMoreSlots(t: Tables, mid: Tables, before: seq<RouteId>, r: RouteId, p: Profile, stamp: int)
    requires SlotsExact(t, mid, before)
    ensures SlotsExact(t, Remove(mid, r, p, stamp), before + [r])
  {
    hide Bumped, RunsOf, JobsOf;
  }

  lemma OneMoreRuns(t: Tables, mid: Tables, before: seq<RouteId>, r: RouteId, p: Profile, stamp: int)
    requires RunsExact(t, mid, before)
    ensures RunsExact(t, Remove(mid, r, p, stamp), before + [r])
  {
    hide Bumped, SlotsOf, JobsOf;
  }

  lemma OneMoreJobs(t: Tables, mid: Tables, before: seq<RouteId>, r: RouteId, p: Profile, stamp: int)
    requires JobsExact(t, mid, before) && JobsOf(mid, r) == JobsOf(t, r)
    ensures JobsExact(t, Remove(mid, r, p, stamp), before + [r])
  {
    hide Bumped, SlotsOf, RunsOf, JobsOf;
    var u := Remove(mid, r, p, stamp);
    assert u.jobs == mid.jobs - JobsOf(mid, r);
    forall j ensures j in u.jobs <==> j in t.jobs && forall q | q in before + [r] :: j !in JobsOf(t, q) {
      if j in t.jobs && forall q | q in before + [r] :: j !in JobsOf(t, q) {
        assert forall q | q in before :: q in before + [r];
        assert r in before + [r];
      }
    }
  }

  lemma OneMoreRoutes(t: Tables, mid: Tables, before: seq<RouteId>, r: RouteId, stamp: int)
    requires r in t.profiles && (forall q | q in before :: q in t.profiles) && RoutesExact(t, mid, before)
    ensures RoutesExact(t, Remove(mid, r, t.profiles[r], stamp), before + [r])
  {
    hide Bumped, SlotsOf, RunsOf, JobsOf;
    var u := Remove(mid, r, t.profiles[r], stamp);
    forall k ensures k in u.routes <==> k in t.routes && forall q | q in before + [r] :: k != (q.workspace, t.profiles[q].key) {
      if k in t.routes && forall q | q in before + [r] :: k != (q.workspace, t.profiles[q].key) {
        assert forall q | q in before :: q in before + [r];
        assert r in before + [r];
      }
    }
  }

  lemma OneMoreProfile(t: Tables, mid: Tables, before: seq<RouteId>, r: RouteId, stamp: int)
    requires r in t.profiles && (forall q | q in before :: q in t.profiles) && ProfilesExact(t, mid, before)
    ensures ProfilesExact(t, Remove(mid, r, t.profiles[r], stamp), before + [r])
  {
    hide SlotsOf, RunsOf, JobsOf;
    assert (before + [r])[..|before|] == before;
    forall w ensures BumpOf(t.profiles, before + [r], w) ==
        BumpOf(t.profiles, before, w) + if r.workspace == w then t.profiles[r].generation + 1 else 0 {
    }
  }

  /** A run over all unsupported routes takes away these routes and nothing else. */
  lemma {:induction false} RemovalIsExact(t: Tables, order: seq<RouteId>, stamp: int)
    requires Listed(t, order)
    ensures OnlyTheseGone(t, RemoveAll(t, t.profiles, order, stamp), order)
  {
    hide Remove, Unsupported, JobsOf, SlotsExact, RunsExact, JobsExact, RoutesExact, ProfilesExact, SameView;
    if order == [] {
      NothingGone(t);
    } else {
      var r, before := order[|order| - 1], order[..|order| - 1];
      assert order == before + [r];
      assert r !in before && forall q | q in before :: q in order;
      var mid := RemoveAll(t, t.profiles, before, stamp);
      RemovalIsExact(t, before, stamp);
      EarlierRemovalsKeepView(t, before, stamp, r);
      SameViewSameJobs(t, mid, r);
      OneMoreSlots(t, mid, before, r, t.profiles[r], stamp);
      OneMoreRuns(t, mid, before, r, t.profiles[r], stamp);
      OneMoreJobs(t, mid, before, r, t.profiles[r], stamp);
      OneMoreRoutes(t, mid, before, r, stamp);
      OneMoreProfile(t, mid, before, r, stamp);
      RemoveKeepsEvidence(mid, r, t.profiles[r], stamp);
    }
  }

  lemma SameViewSameJobs(a: Tables, b: Tables, q: RouteId)
    requires SameView(a, b, q)
    ensures JobsOf(a, q) == JobsOf(b, q)
  {
  }

  lemma RemoveKeepsEvidence(t: Tables, r: RouteId, p: Profile, stamp: int)
    ensures Remove(t, r, p, stamp).evidence == t.evidence
  {
  }

  // ---------------------------------------------------------------- generations

  lemma {:induction false} BumpCovers(rows: map<RouteId, Profile>, order: seq<RouteId>, r: RouteId)
    requires (forall q | q in order :: q in rows) && r in order
    ensures BumpOf(rows, order, r.workspace) >= rows[r].generation + 1
  {
    var last, before := order[|order| - 1], order[..|order| - 1];
    assert order == before + [last];
    if last != r {
      BumpCovers(rows, before, r);
    }
  }

  /** In a workspace that lost a route, the surviving channel route is ahead of its old generation and of
      every route that went. */
  lemma GenerationsRise(t: Tables, order: seq<RouteId>, stamp: int, r: RouteId, channel: RouteId)
    requires Listed(t, order) && r in order && channel in ChannelRoutes(t, r.workspace)
    ensures var u := Repaired(t, order, stamp);
      && channel in u.profiles
      && u.profiles[channel].generation > t.profiles[channel].generation + t.profiles[r].generation
  {
    hide JobsOf, SlotsExact, RunsExact, JobsExact, RoutesExact;
    RemovalIsExact(t, order, stamp);
    BumpCovers(t.profiles, order, r);
    assert r in UnsupportedRoutes(t);
    assert channel !in order;
  }

  /** The rise of the generations of the listed profiles. */
  ghost function Rise(t: Tables, u: Tables, channels: seq<RouteId>): int
    requires forall c | c in channels :: c in t.profiles && c in u.profiles
  {
    if channels == [] then 0
    else u.profiles[channels[0]].generation - t.profiles[channels[0]].generation + Rise(t, u, channels[1..])
  }

  /** The bumps of the workspaces of the listed channels. */
  ghost function BumpsAt(rows: map<RouteId, Profile>, order: seq<RouteId>, channels: seq<RouteId>): nat
    requires forall r | r in order :: r in rows
  {
    if channels == [] then 0 else BumpOf(rows, order, channels[0].workspace) + BumpsAt(rows, order, channels[1..])
  }

  /** How many of the channels are in the workspace. */
  ghost function InWorkspace(channels: seq<RouteId>, workspace: nat): nat {
    if channels == [] then 0 else (if channels[0].workspace == workspace then 1 else 0) + InWorkspace(channels[1..], workspace)
  }

  lemma {:induction false} OneMoreBump(rows: map<RouteId, Profile>, before: seq<RouteId>, r: RouteId, channels: seq<RouteId>)
    requires r in rows && (forall q | q in before :: q in rows) && InWorkspace(channels, r.workspace) <= 1
    ensures BumpsAt(rows, before + [r], channels) ==
      BumpsAt(rows, before, channels) + if InWorkspace(channels, r.workspace) == 1 then rows[r].generation + 1 else 0
  {
    assert (before + [r])[..|before|] == before;
    if channels != [] {
      OneMoreBump(rows, before, r, channels[1..]);
    }
  }

  lemma {:induction false} NoBumps(rows: map<RouteId, Profile>, channels: seq<RouteId>)
    ensures BumpsAt(rows, [], channels) == 0
  {
    if channels != [] {
      NoBumps(rows, channels[1..]);
    }
  }

  lemma {:induction false} BumpIsShared(rows: map<RouteId, Profile>, order: seq<RouteId>, channels: seq<RouteId>)
    requires forall r | r in order :: r in rows && InWorkspace(channels, r.workspace) == 1
    ensures Bump(rows, order) == BumpsAt(rows, order, channels)
  {
    if order == [] {
      NoBumps(rows, channels);
    } else {
      var r, before := order[|order| - 1], order[..|order| - 1];
      assert order == before + [r];
      BumpIsShared(rows, before, channels);
      OneMoreBump(rows, before, r, channels);
    }
  }

  lemma {:induction false} RiseIsBumps(t: Tables, u: Tables, order: seq<RouteId>, channels: seq<RouteId>)
    requires forall r | r in order :: r in t.profiles
    requires ProfilesExact(t, u, order)
    requires forall c | c in channels :: c in t.profiles && c in u.profiles && IsChannel(t.profiles[c])
    ensures Rise(t, u, channels) == BumpsAt(t.profiles, order, channels)
  {
    if channels != [] {
      assert channels[0] in channels && forall c | c in channels[1..] :: c in channels;
      RiseIsBumps(t, u, order, channels[1..]);
    }
  }

  /** The members of a listing that are in the workspace. */
  ghost function Local(channels: seq<RouteId>, workspace: nat): set<RouteId> {
    set c | c in channels && c.workspace == workspace
  }

  lemma LocalCons(first: RouteId, rest: seq<RouteId>, workspace: nat)
    ensures Local([first] + rest, workspace) == Local(rest, workspace) + if first.workspace == workspace then {first} else {}
  {
  }

  /** Distinct members, counted in two ways. */
  lemma {:induction false} CountInWorkspace(channels: seq<RouteId>, workspace: nat)
    requires forall i, j :: 0 <= i < j < |channels| ==> channels[i] != channels[j]
    ensures InWorkspace(channels, workspace) == |Local(channels, workspace)|
  {
    if channels != [] {
      var first, rest := channels[0], channels[1..];
      CountInWorkspace(rest, workspace);
      assert first !in rest && channels == [first] + rest;
      LocalCons(first, rest, workspace);
    }
  }

  ghost function AllChannels(t: Tables): set<RouteId> {
    set c | c in t.profiles && IsChannel(t.profiles[c])
  }

  lemma SurvivingChannels(t: Tables, u: Tables, order: seq<RouteId>)
    requires Listed(t, order) && ProfilesExact(t, u, order)
    ensures forall c | c in AllChannels(t) :: c in u.profiles
  {
    assert forall r | r in order :: Unsupported(t.profiles[r]);
  }

  lemma RepairedIsExact(t: Tables, order: seq<RouteId>, stamp: int)
    requires Listed(t, order)
    ensures OnlyTheseGone(t, Repaired(t, order, stamp), order)
  {
    hide Remove, Unsupported, JobsOf, BumpOf, RemoveAll, ResetAll;
    RemovalIsExact(t, order, stamp);
  }

  /** The reported bump is the total rise of the generations of all channel routes. */
  lemma BumpIsTheRise(t: Tables, order: seq<RouteId>, stamp: int, channels: seq<RouteId>)
    requires Listed(t, order) && Enumerates(channels, AllChannels(t))
    requires forall r | r in order :: Repairable(t, r)
    ensures forall c | c in channels :: c in t.profiles && c in Repaired(t, order, stamp).profiles
    ensures Bump(t.profiles, order) == Rise(t, Repaired(t, order, stamp), channels)
  {
    hide Removable, SlotsExact, RunsExact, JobsExact, RoutesExact, ProfilesExact, Repaired, InWorkspace;
    var u := Repaired(t, order, stamp);
    RepairedIsExact(t, order, stamp);
    SurvivingChannels(t, u, order);
    forall r | r in order ensures InWorkspace(channels, r.workspace) == 1 {
      CountInWorkspace(channels, r.workspace);
      assert Local(channels, r.workspace) == ChannelRoutes(t, r.workspace);
    }
    BumpIsShared(t.profiles, order, channels);
    RiseIsBumps(t, u, order, channels);
  }

  // ---------------------------------------------------------------- running it again

  lemma FirstRow<T>(rows: seq<T>, found: set<T>)
    requires Enumerates(rows, found) && rows != []
    ensures rows[0] in found
  {
  }

  lemma SurvivorIsSupported(t: Tables, u: Tables, order: seq<RouteId>, k: RouteId)
    requires Enumerates(order, UnsupportedRoutes(t)) && ProfilesExact(t, u, order) && k in u.profiles
    ensures !Unsupported(u.profiles[k])
  {
    assert k !in UnsupportedRoutes(t);
  }

  /** After a completed repair there is nothing left to repair: a second one changes nothing. */
  lemma RepairTwice(t: Tables, order: seq<RouteId>, stamp: int, again: seq<RouteId>, later: int)
    requires Enumerates(order, UnsupportedRoutes(t))
    requires Enumerates(again, UnsupportedRoutes(Repaired(t, order, stamp)))
    ensures again == [] && Repaired(Repaired(t, order, stamp), again, later) == Repaired(t, order, stamp)
    ensures SettingsToReset(Repaired(t, order, stamp).settings) == {}
  {
    hide SlotsExact, RunsExact, JobsExact, RoutesExact, ProfilesExact, RemoveAll, Unsupported, ResetAll, SettingsToReset;
    var u := Repaired(t, order, stamp);
    assert Listed(t, order);
    RepairedIsExact(t, order, stamp);
    forall k | k in u.profiles ensures !Unsupported(u.profiles[k]) {
      SurvivorIsSupported(t, u, order, k);
    }
    assert UnsupportedRoutes(u) == {};
    NoRows(again);
    NothingToRemove(u, later);
    NothingToReset(t.settings, stamp, later);
  }

  lemma NoRows<T>(rows: seq<T>)
    requires Enumerates(rows, {})
    ensures rows == []
  {
    hide Enumerates;
    if rows != [] {
      FirstRow(rows, {});
    }
  }

  lemma NothingToRemove(t: Tables, stamp: int)
    ensures RemoveAll(t, t.profiles, [], stamp) == t
  {
  }

  lemma NothingToReset(settings: map<nat, Settings>, stamp: int, later: int)
    ensures ResetAll(ResetAll(settings, stamp), later) == ResetAll(settings, stamp)
    ensures SettingsToReset(ResetAll(settings, stamp)) == {}
  {
  }
}
