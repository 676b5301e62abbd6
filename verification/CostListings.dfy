/** Exactly when the v17 repair of a whole ledger depends on the order of the validations. */
module CostListings {
  import opened Common
  import opened CostLedger
  import opened CostOrder
  import opened CostPairs

  // ---------------------------------------------------------------- stamping again and again

  /** What the round of a validation does to the runs of its attempt. */
  ghost function Stamp(runs: map<Key, Run>, a: Key, now: int): map<Key, Run> {
    if ProvenNoStart(runs, a) then Touch(runs, LatestRun(runs, a).value, now) else runs
  }

  ghost function Stamps(runs: map<Key, Run>, a: Key, now: int, times: nat): map<Key, Run> {
    if times == 0 then runs else Stamp(Stamps(runs, a, now, times - 1), a, now)
  }

  /** The validations of an attempt. */
  ghost function Sharing(t: Tables, a: Key): set<Key> {
    set v | v in t.validations && t.validations[v].attemptId == Some(a)
  }

  /** For every attempt that `m` validations share: if its latest run proves that nothing started, the one in
      the lead still does after it has been stamped any number of times below `m`. */
  ghost predicate Lasting(t: Tables, now: int) {
    forall a, j: nat | ProvenNoStart(t.runs, a) && j < |Sharing(t, a)| :: ProvenNoStart(Stamps(t.runs, a, now, j), a)
  }

  /** The runs of the attempt are the same in both tables, and no run has moved to another attempt. */
  ghost predicate SameRuns(a: Key, x: map<Key, Run>, y: map<Key, Run>) {
    && x.Keys == y.Keys
    && (forall r | r in x :: x[r].logicalRunId == y[r].logicalRunId)
    && (forall r | r in x && x[r].logicalRunId == Some(a) :: x[r] == y[r])
  }

  lemma SameRunsSameLatest(a: Key, x: map<Key, Run>, y: map<Key, Run>)
    requires SameRuns(a, x, y)
    ensures LatestRun(x, a) == LatestRun(y, a) && ProvenNoStart(x, a) == ProvenNoStart(y, a)
  {
    if LatestRun(x, a).Some? {
      var r := LatestRun(x, a).value;
      forall s | s in y && y[s].logicalRunId == Some(a) ensures NotAfter(y, s, r) {
        assert NotAfter(x, s, r);
      }
      assert IsLatest(y, a, r);
      LatestIsUnique(y, a, r);
    } else {
      assert !HasRun(y, a);
    }
  }

  lemma SameRunsStamp(a: Key, x: map<Key, Run>, y: map<Key, Run>, now: int)
    requires SameRuns(a, x, y)
    ensures SameRuns(a, Stamp(x, a, now), Stamp(y, a, now))
  {
    SameRunsSameLatest(a, x, y);
    hide LatestRun;
  }

  /** Stamping for one attempt leaves the runs of another alone. */
  lemma OtherStamp(a: Key, b: Key, x: map<Key, Run>, now: int)
    requires a != b
    ensures SameRuns(a, Stamp(x, b, now), x)
  {
  }

  // ---------------------------------------------------------------- the runs along the loop

  /** How many of the listed validations belong to the attempt. */
  ghost function Rounds(t: Tables, order: seq<Key>, a: Key): nat
    requires forall v | v in order :: v in t.validations
  {
    if order == [] then 0
    else
      var last := order[|order| - 1];
      Rounds(t, order[..|order| - 1], a) + if last in Sharing(t, a) then 1 else 0
  }

  lemma StepStamps(s: State, v: Key, now: int)
    requires v in s.tables.validations
    ensures var t, u := s.tables, Step(s, v, now).tables;
      && u.runs == (if t.validations[v].attemptId.Some? then Stamp(t.runs, t.validations[v].attemptId.value, now) else t.runs)
      && u.validations.Keys == t.validations.Keys
      && (forall w | w in t.validations :: u.validations[w].attemptId == t.validations[w].attemptId)
      && (forall w | w in t.validations && w != v :: u.validations[w] == t.validations[w])
  {
    hide LatestRun, FinalCost, CancelledWithoutStart, StepAttempts, StepRevisions, StepCandidates, StepCounts;
  }

  lemma {:induction false} FoldKeepsRows(s: State, order: seq<Key>, now: int)
    requires forall v | v in order :: v in s.tables.validations
    ensures var t, u := s.tables, Fold(s, order, now).tables;
      && u.validations.Keys == t.validations.Keys
      && (forall w | w in t.validations :: u.validations[w].attemptId == t.validations[w].attemptId)
      && (forall w | w in t.validations && w !in order :: u.validations[w] == t.validations[w])
  {
    hide Step;
    if order != [] {
      var n := |order| - 1;
      assert order == order[..n] + [order[n]];
      FoldKeepsRows(s, order[..n], now);
      StepStamps(Fold(s, order[..n], now), order[n], now);
    }
  }

  /** After any rounds the runs of an attempt are its original runs, stamped once for each of its rounds. */
  lemma {:induction false} FoldStamps(s: State, order: seq<Key>, now: int, a: Key)
    requires forall v | v in order :: v in s.tables.validations
    ensures SameRuns(a, Fold(s, order, now).tables.runs, Stamps(s.tables.runs, a, now, Rounds(s.tables, order, a)))
  {
    hide Step, SameRuns, Stamp;
    if order == [] {
      SameRunsItself(a, s.tables.runs);
    } else {
      var n := |order| - 1;
      var before, v := Fold(s, order[..n], now), order[n];
      var stamped := Stamps(s.tables.runs, a, now, Rounds(s.tables, order[..n], a));
      FoldStamps(s, order[..n], now, a);
      FoldKeepsRows(s, order[..n], now);
      StepStamps(before, v, now);
      var b := s.tables.validations[v].attemptId;
      if b == Some(a) {
        SameRunsStamp(a, before.tables.runs, stamped, now);
      } else if b.Some? {
        OtherStamp(a, b.value, before.tables.runs, now);
        SameRunsTrans(a, Fold(s, order, now).tables.runs, before.tables.runs, stamped);
      }
    }
  }

  lemma SameRunsItself(a: Key, x: map<Key, Run>)
    ensures SameRuns(a, x, x)
  {
  }

  lemma SameRunsTrans(a: Key, x: map<Key, Run>, y: map<Key, Run>, z: map<Key, Run>)
    requires SameRuns(a, x, y) && SameRuns(a, y, z)
    ensures SameRuns(a, x, z)
  {
  }

  // ---------------------------------------------------------------- when neighbours clash

  /** Two neighbours clash after the rounds of `order` exactly when they share an attempt that loses its proof
      with the next stamp. */
  lemma ClashAfter(s: State, order: seq<Key>, v: Key, w: Key, now: int)
    requires forall x | x in order :: x in s.tables.validations
    requires v in s.tables.validations && w in s.tables.validations
    ensures var t, u := s.tables, Fold(s, order, now).tables;
      var a := t.validations[v].attemptId;
      Clash(u, v, w, now) <==>
        && a.Some? && t.validations[w].attemptId == a
        && ProvenNoStart(Stamps(t.runs, a.value, now, Rounds(t, order, a.value)), a.value)
        && !ProvenNoStart(Stamps(t.runs, a.value, now, Rounds(t, order, a.value) + 1), a.value)
  {
    hide LatestRun, Step, Fold;
    FoldKeepsRows(s, order, now);
    var t, u := s.tables, Fold(s, order, now).tables;
    if t.validations[v].attemptId.Some? {
      var a := t.validations[v].attemptId.value;
      var stamped := Stamps(t.runs, a, now, Rounds(t, order, a));
      FoldStamps(s, order, now, a);
      SameRunsSameLatest(a, u.runs, stamped);
      SameRunsStamp(a, u.runs, stamped, now);
      SameRunsSameLatest(a, Stamp(u.runs, a, now), Stamp(stamped, a, now));
    }
  }

  lemma OneMoreShared(done: set<Key>, x: Key, shared: set<Key>)
    requires x !in done
    ensures |(done + {x}) * shared| == |done * shared| + if x in shared then 1 else 0
  {
    assert (done + {x}) * shared == done * shared + if x in shared then {x} else {};
  }

  lemma DistinctPrefix(order: seq<Key>)
    requires Distinct(order) && order != []
    ensures var n := |order| - 1;
      Distinct(order[..n]) && order[n] !in Members(order[..n]) && order[n] in order
      && forall v | v in order[..n] :: v in order
  {
    var n := |order| - 1;
    assert forall i | 0 <= i < n :: order[..n][i] == order[i];
  }

  lemma {:induction false} RoundsAreShared(t: Tables, order: seq<Key>, a: Key)
    requires Distinct(order) && forall v | v in order :: v in t.validations
    ensures Rounds(t, order, a) == |Members(order) * Sharing(t, a)|
  {
    hide Sharing, Distinct;
    if order == [] {
      assert Members(order) * Sharing(t, a) == {};
    } else {
      hide Members;
      var n := |order| - 1;
      DistinctPrefix(order);
      RoundsAreShared(t, order[..n], a);
      MembersSnoc(order);
      OneMoreShared(Members(order[..n]), order[n], Sharing(t, a));
    }
  }

  ghost predicate Distinct(order: seq<Key>) {
    forall i, j :: 0 <= i < j < |order| ==> order[i] != order[j]
  }

  lemma {:induction false} Subset(a: set<Key>, b: set<Key>)
    requires a <= b
    ensures |a| <= |b|
  {
    assert |b - a| == |b| - |a|;
  }

  /** With two of its validations still to come, an attempt has had at least two rounds fewer than it has
      validations. */
  lemma RoundsToGo(t: Tables, order: seq<Key>, v: Key, w: Key, a: Key)
    requires Distinct(order) && v != w && v !in order && w !in order
    requires (forall x | x in order :: x in t.validations) && v in Sharing(t, a) && w in Sharing(t, a)
    ensures Rounds(t, order, a) + 1 < |Sharing(t, a)|
  {
    hide Sharing;
    var done := Members(order) * Sharing(t, a);
    RoundsAreShared(t, order, a);
    Subset(done + {v, w}, Sharing(t, a));
    assert |done + {v, w}| == |done| + 2;
  }

  lemma {:induction false} UnprovenStays(runs: map<Key, Run>, a: Key, now: int, times: nat)
    requires !ProvenNoStart(runs, a)
    ensures Stamps(runs, a, now, times) == runs
  {
    if times > 0 {
      UnprovenStays(runs, a, now, times - 1);
    }
  }

  lemma NoClash(s: State, order: seq<Key>, v: Key, w: Key, now: int)
    requires Lasting(s.tables, now) && Distinct(order) && v != w && v !in order && w !in order
    requires forall x | x in order + [v, w] :: x in s.tables.validations
    ensures v in s.tables.validations && w in s.tables.validations && forall x | x in order :: x in s.tables.validations
    ensures !Clash(Fold(s, order, now).tables, v, w, now)
  {
    var t := s.tables;
    assert v in order + [v, w] && w in order + [v, w] && forall x | x in order :: x in order + [v, w];
    ClashAfter(s, order, v, w, now);
    if t.validations[v].attemptId.Some? && t.validations[w].attemptId == t.validations[v].attemptId {
      var a := t.validations[v].attemptId.value;
      RoundsToGo(t, order, v, w, a);
      if !ProvenNoStart(t.runs, a) {
        UnprovenStays(t.runs, a, now, Rounds(t, order, a));
      }
    }
  }

  // ---------------------------------------------------------------- from neighbours to listings

  lemma {:induction false} FoldAppend(s: State, x: seq<Key>, y: seq<Key>, now: int)
    requires forall v | v in x + y :: v in s.tables.validations
    ensures (forall v | v in x :: v in s.tables.validations) && (forall v | v in y :: v in s.tables.validations)
    ensures Fold(s, x + y, now) == Fold(Fold(s, x, now), y, now)
  {
    hide Step;
    assert (forall v | v in x :: v in x + y) && (forall v | v in y :: v in x + y);
    if y == [] {
      assert x + y == x;
    } else {
      var n := |y| - 1;
      assert (x + y)[..|x + y| - 1] == x + y[..n] && (x + y)[|x + y| - 1] == y[n];
      assert forall v | v in x + y[..n] :: v in x + y;
      FoldAppend(s, x, y[..n], now);
    }
  }

  ghost predicate Listed(s: State, order: seq<Key>) {
    Distinct(order) && forall v | v in order :: v in s.tables.validations
  }

  lemma SwapNeighbours(s: State, x: seq<Key>, v: Key, w: Key, y: seq<Key>, now: int)
    requires Lasting(s.tables, now) && Listed(s, x + [v, w] + y)
    ensures Listed(s, x + [w, v] + y) && Fold(s, x + [v, w] + y, now) == Fold(s, x + [w, v] + y, now)
  {
    SwappedIsListed(s, x, v, w, y);
    hide Lasting, Step, Fold, Clash, Distinct;
    NoClash(s, x, v, w, now);
    var before := Fold(s, x, now);
    SwapMattersIffClash(before, v, w, now);
    FoldTwo(before, v, w, now);
    FoldTwo(before, w, v, now);
    FoldAppend(s, x, [v, w], now);
    FoldAppend(s, x, [w, v], now);
    FoldAppend(s, x + [v, w], y, now);
    FoldAppend(s, x + [w, v], y, now);
  }

  lemma SwappedIsListed(s: State, x: seq<Key>, v: Key, w: Key, y: seq<Key>)
    requires Listed(s, x + [v, w] + y)
    ensures Listed(s, x + [w, v] + y) && Listed(s, x) && v != w && v !in x && w !in x
    ensures forall k | k in x + [v, w] :: k in s.tables.validations
    ensures forall k | k in x + [w, v] :: k in s.tables.validations
    ensures forall k | k in x + [v, w] + y :: k in s.tables.validations
    ensures forall k | k in x + [w, v] + y :: k in s.tables.validations
    ensures v in s.tables.validations && w in s.tables.validations
  {
    var one, two := x + [v, w] + y, x + [w, v] + y;
    var n := |x|;
    assert one[n] == v && one[n + 1] == w && two[n] == w && two[n + 1] == v;
    assert forall i | 0 <= i < |one| && i != n && i != n + 1 :: two[i] == one[i];
    assert forall i | 0 <= i < n :: x[i] == one[i];
    assert forall k | k in two :: k in one;
    assert forall k | k in x + [v, w] :: k in one;
    assert forall k | k in x + [w, v] :: k in one;
  }

  /** A validation may be moved to the end. */
  lemma {:induction false} MoveToEnd(s: State, order: seq<Key>, i: nat, now: int)
    requires Lasting(s.tables, now) && Listed(s, order) && i < |order|
    ensures Listed(s, order[..i] + order[i + 1..] + [order[i]])
    ensures Fold(s, order, now) == Fold(s, order[..i] + order[i + 1..] + [order[i]], now)
    decreases |order| - i
  {
    hide Lasting, Step, Fold;
    if i == |order| - 1 {
      assert order[..i] + order[i + 1..] + [order[i]] == order;
    } else {
      var x, v, w, y := order[..i], order[i], order[i + 1], order[i + 2..];
      assert order == x + [v, w] + y;
      SwapNeighbours(s, x, v, w, y, now);
      var next := x + [w, v] + y;
      MoveToEnd(s, next, i + 1, now);
      assert next[..i + 1] + next[i + 2..] + [next[i + 1]] == order[..i] + order[i + 1..] + [order[i]];
    }
  }

  /** A listing without one of its members. */
  lemma WithoutMember(s: State, x: seq<Key>, i: nat)
    requires Listed(s, x) && i < |x|
    ensures var rest := x[..i] + x[i + 1..];
      Listed(s, rest) && Members(rest) == Members(x) - {x[i]}
  {
    var rest := x[..i] + x[i + 1..];
    assert x == x[..i] + [x[i]] + x[i + 1..];
    assert forall j | 0 <= j < |rest| :: rest[j] == x[if j < i then j else j + 1];
  }

  lemma FirstMember(x: seq<Key>)
    requires x != []
    ensures x[0] in Members(x)
  {
  }

  lemma NoMembers(x: seq<Key>)
    requires Members(x) == {}
    ensures x == []
  {
    hide Members;
    if x != [] {
      FirstMember(x);
    }
  }

  /** Under the condition any two listings of the same validations do the same. */
  lemma {:induction false} ListingsAgree(s: State, x: seq<Key>, y: seq<Key>, now: int)
    requires Lasting(s.tables, now) && Listed(s, x) && Listed(s, y) && Members(x) == Members(y)
    ensures Fold(s, x, now) == Fold(s, y, now)
    decreases |y|
  {
    if y == [] {
      assert Members(y) == {};
      NoMembers(x);
    } else {
      var n := |y| - 1;
      var last := y[n];
      assert last in Members(x);
      var i :| 0 <= i < |x| && x[i] == last;
      hide Lasting, Step, Listed, Members;
      MoveToEnd(s, x, i, now);
      WithoutMember(s, x, i);
      WithoutMember(s, y, n);
      var rest := x[..i] + x[i + 1..];
      assert y[..n] + y[n + 1..] == y[..n];
      ListingsAgree(s, rest, y[..n], now);
      FoldLast(s, rest, last, now);
      FoldLast(s, y[..n], last, now);
      assert y[..n] + [last] == y;
    }
  }

  lemma FoldLast(s: State, x: seq<Key>, last: Key, now: int)
    requires Listed(s, x + [last])
    ensures Listed(s, x) && last in s.tables.validations
    ensures last in Fold(s, x, now).tables.validations
    ensures Fold(s, x + [last], now) == Step(Fold(s, x, now), last, now)
  {
    hide Step;
    var all := x + [last];
    assert all[..|all| - 1] == x && all[|all| - 1] == last && last in all;
    assert forall i | 0 <= i < |x| :: x[i] == all[i] && x[i] in all;
  }

  // ---------------------------------------------------------------- and back

  lemma Member<T>(s: set<T>) returns (x: T)
    requires |s| > 0
    ensures x in s
  {
    x :| x in s;
  }

  lemma {:induction false} SomeListing(keys: set<Key>) returns (order: seq<Key>)
    ensures Distinct(order) && Members(order) == keys && |order| == |keys|
    decreases |keys|
  {
    if |keys| == 0 {
      order := [];
    } else {
      var k := Member(keys);
      var rest := SomeListing(keys - {k});
      order := rest + [k];
      assert k !in Members(rest);
      MembersSnoc(order);
      assert order[..|order| - 1] == rest && Members(rest) == keys - {k};
    }
  }

  lemma {:induction false} RoundsOfSharing(t: Tables, order: seq<Key>, a: Key)
    requires forall v | v in order :: v in t.validations && v in Sharing(t, a)
    ensures Rounds(t, order, a) == |order|
  {
    hide Sharing;
    if order != [] {
      RoundsOfSharing(t, order[..|order| - 1], a);
    }
  }

  /** The first stamp that loses the proof. */
  lemma {:induction false} FirstLoss(runs: map<Key, Run>, a: Key, now: int, j: nat) returns (i: nat)
    requires ProvenNoStart(runs, a) && !ProvenNoStart(Stamps(runs, a, now, j), a)
    ensures 1 <= i <= j
    ensures ProvenNoStart(Stamps(runs, a, now, i - 1), a) && !ProvenNoStart(Stamps(runs, a, now, i), a)
  {
    hide ProvenNoStart, Stamp;
    if ProvenNoStart(Stamps(runs, a, now, j - 1), a) {
      i := j;
    } else {
      i := FirstLoss(runs, a, now, j - 1);
    }
  }

  /** Two listings that begin alike and swap two clashing validations end with different rows. */
  lemma ClashingListings(s: State, x: seq<Key>, v: Key, w: Key, y: seq<Key>, now: int)
    requires Listed(s, x + [v, w] + y) && Listed(s, x + [w, v] + y)
    requires Listed(s, x) && v in s.tables.validations && w in s.tables.validations && v != w && v !in y
    requires Clash(Fold(s, x, now).tables, v, w, now)
    ensures Fold(s, x + [v, w] + y, now) != Fold(s, x + [w, v] + y, now)
  {
    hide Step, Clash, Distinct;
    var before := Fold(s, x, now);
    ClashShows(before, v, w, now);
    FoldTwo(before, v, w, now);
    FoldTwo(before, w, v, now);
    SwappedIsListed(s, x, v, w, y);
    FoldAppend(s, x, [v, w], now);
    FoldAppend(s, x, [w, v], now);
    FoldAppend(s, x + [v, w], y, now);
    FoldAppend(s, x + [w, v], y, now);
    FoldKeepsRows(Fold(s, x + [v, w], now), y, now);
    FoldKeepsRows(Fold(s, x + [w, v], now), y, now);
  }

  /** Without the condition some two listings of the whole ledger end differently. */
  lemma LossShows(t: Tables, now: int) returns (x: seq<Key>, y: seq<Key>)
    requires !Lasting(t, now)
    ensures Enumerates(x, t.validations.Keys) && Enumerates(y, t.validations.Keys)
    ensures Fold(State(t, NO_COUNTS), x, now) != Fold(State(t, NO_COUNTS), y, now)
  {
    var a, j: nat :| ProvenNoStart(t.runs, a) && j < |Sharing(t, a)| && !ProvenNoStart(Stamps(t.runs, a, now, j), a);
    var i := FirstLoss(t.runs, a, now, j);
    var shared := SomeListing(Sharing(t, a));
    var others := SomeListing(t.validations.Keys - Sharing(t, a));
    var p, v, w := shared[..i - 1], shared[i - 1], shared[i];
    var rest := shared[i + 1..] + others;
    hide Step, Fold, Clash, ProvenNoStart, Stamps, Lasting;
    SharedFirst(t, a, shared, others, i);
    var s := State(t, NO_COUNTS);
    RoundsOfSharing(t, p, a);
    ClashAfter(s, p, v, w, now);
    SwappedIsListed(s, p, v, w, rest);
    ClashingListings(s, p, v, w, rest, now);
    x, y := p + [v, w] + rest, p + [w, v] + rest;
    SwapKeepsMembers(p, v, w, rest);
    ListedEnumerates(s, x);
    ListedEnumerates(s, y);
  }

  lemma AppendDistinct(x: seq<Key>, y: seq<Key>)
    requires Distinct(x) && Distinct(y) && Members(x) !! Members(y)
    ensures Distinct(x + y) && Members(x + y) == Members(x) + Members(y)
  {
    assert forall k | k in x :: k in Members(x);
    assert forall k | k in y :: k in Members(y);
    forall k, l | 0 <= k < l < |x + y| ensures (x + y)[k] != (x + y)[l] {
      if k < |x| <= l {
        assert (x + y)[k] in Members(x) && (x + y)[l] in Members(y);
      }
    }
  }

  lemma NotLater(all: seq<Key>, i: nat)
    requires Distinct(all) && 1 <= i < |all|
    ensures all[i - 1] !in all[i + 1..]
  {
    var rest := all[i + 1..];
    assert forall k | 0 <= k < |rest| :: rest[k] == all[i + 1 + k];
  }

  lemma SharedFirst(t: Tables, a: Key, shared: seq<Key>, others: seq<Key>, i: nat)
    requires Distinct(shared) && Members(shared) == Sharing(t, a) && 1 <= i < |shared|
    requires Distinct(others) && Members(others) == t.validations.Keys - Sharing(t, a)
    ensures var s := State(t, NO_COUNTS);
      var p, v, w := shared[..i - 1], shared[i - 1], shared[i];
      var rest := shared[i + 1..] + others;
      && Listed(s, p + [v, w] + rest) && Members(p + [v, w] + rest) == t.validations.Keys
      && (forall k | k in p + [v, w] :: k in t.validations && k in Sharing(t, a)) && v !in rest
  {
    var p, v, w := shared[..i - 1], shared[i - 1], shared[i];
    var rest := shared[i + 1..] + others;
    var all := shared + others;
    assert p + [v, w] + rest == all;
    assert all[i + 1..] == rest && all[i - 1] == v;
    AppendDistinct(shared, others);
    NotLater(all, i);
    forall k | k in p + [v, w] ensures k in Sharing(t, a) {
      assert k in shared && k in Members(shared);
    }
    assert Sharing(t, a) <= t.validations.Keys;
    hide Distinct, Sharing;
    forall k | k in all ensures k in t.validations {
      assert k in Members(all);
    }
  }

  lemma SwapKeepsMembers(x: seq<Key>, v: Key, w: Key, y: seq<Key>)
    ensures Members(x + [v, w] + y) == Members(x + [w, v] + y)
  {
    assert forall k :: k in x + [v, w] + y <==> k in x + [w, v] + y;
  }

  lemma ListedEnumerates(s: State, x: seq<Key>)
    requires Listed(s, x) && Members(x) == s.tables.validations.Keys
    ensures Enumerates(x, s.tables.validations.Keys)
  {
    assert forall k | k in x :: k in Members(x);
    assert forall k | k in Members(x) :: k in x;
  }

  lemma ResetIsLasting(t: Tables, now: int)
    ensures Lasting(Reset(t), now) == Lasting(t, now)
  {
    hide ProvenNoStart, Stamps;
    forall a ensures Sharing(Reset(t), a) == Sharing(t, a) {
      assert forall v | v in t.validations :: Reset(t).validations[v].attemptId == t.validations[v].attemptId;
    }
  }

  /** Any two listings give the same repair. */
  ghost predicate AnyOrder(t: Tables, now: int) {
    forall x, y | Enumerates(x, t.validations.Keys) && Enumerates(y, t.validations.Keys) ::
      Repair(t, x, now) == Repair(t, y, now)
  }

  /** The repair of a ledger does not depend on the order of the validations if and only if, for every
      attempt shared by `m` validations and proven not to have started, stamping the run in the lead fewer
      than `m` times leaves the lead to a run that proves it still. */
  lemma AnyOrderIff(t: Tables, now: int)
    ensures AnyOrder(t, now) <==> Lasting(t, now)
  {
    hide Lasting, Fold, Distinct;
    ResetIsLasting(t, now);
    var s := State(Reset(t), NO_COUNTS);
    if Lasting(t, now) {
      forall x, y | Enumerates(x, t.validations.Keys) && Enumerates(y, t.validations.Keys)
        ensures Repair(t, x, now) == Repair(t, y, now)
      {
        EnumeratesListed(s, x);
        EnumeratesListed(s, y);
        ListingsAgree(s, x, y, now);
      }
    } else {
      var x, y := LossShows(Reset(t), now);
      assert Repair(t, x, now) != Repair(t, y, now);
    }
  }

  lemma EnumeratesListed(s: State, x: seq<Key>)
    requires Enumerates(x, s.tables.validations.Keys)
    ensures Listed(s, x) && Members(x) == s.tables.validations.Keys
  {
  }

  // ---------------------------------------------------------------- a clock ahead is enough

  lemma {:induction false} StableStamps(runs: map<Key, Run>, a: Key, now: int, times: nat)
    requires ProvenNoStart(runs, a) && StaysLatest(runs, a, now)
    ensures ProvenNoStart(Stamps(runs, a, now, times), a)
    ensures times > 0 ==> Stamps(runs, a, now, times) == Touch(runs, LatestRun(runs, a).value, now)
  {
    if times > 0 {
      StableStamps(runs, a, now, times - 1);
      var r := LatestRun(runs, a).value;
      var touched := Touch(runs, r, now);
      LatestIsUnique(touched, a, r);
      assert RejectedFree(touched[r]) && Touch(touched, r, now) == touched;
      hide LatestRun, StaysLatest;
    }
  }

  /** Where every freed run stays the latest of its attempt, the condition holds. */
  lemma StableIsLasting(t: Tables, now: int)
    requires Stable(t, now)
    ensures Lasting(t, now)
  {
    forall a, j: nat | ProvenNoStart(t.runs, a) && j < |Sharing(t, a)|
      ensures ProvenNoStart(Stamps(t.runs, a, now, j), a)
    {
      StableStamps(t.runs, a, now, j);
    }
  }
}
