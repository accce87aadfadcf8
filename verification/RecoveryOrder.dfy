/** Windows come back in their old order when they are reopened in the opposite order of their
    deletion, and reserved items go back to where they were on the stack. */
module RecoveryOrder {
  import opened Common
  import opened Winlinks
  import opened RecoveryState

  // ----- deleting and reopening -----

  /** Windows of one session are deleted one after the other, and all of them are kept. */
  ghost predicate AllDeleted(s: State, id: nat, ps: seq<nat>)
    decreases |ps|, 0
  {
    |ps| > 0 ==>
      var t := ps[..|ps| - 1];
      && AllDeleted(s, id, t)
      && Enabled(Deleted(s, id, t), Delete(id, ps[|ps| - 1], false))
      && DoDelete(Deleted(s, id, t), id, ps[|ps| - 1], false).ret == Normal
  }

  ghost function Deleted(s: State, id: nat, ps: seq<nat>): State
    requires AllDeleted(s, id, ps)
    decreases |ps|, 1
  {
    if |ps| == 0 then s
    else DoDelete(Deleted(s, id, ps[..|ps| - 1]), id, ps[|ps| - 1], false).state
  }

  /** The latest items are reopened. */
  ghost function Reopened(s: State, k: nat): State
    decreases k
  {
    if k == 0 then s else Reopened(DoReopen(s, None).state, k - 1)
  }

  ghost predicate AllReopened(s: State, k: nat)
    decreases k
  {
    k > 0 ==> DoReopen(s, None).ret == Normal && AllReopened(DoReopen(s, None).state, k - 1)
  }

  lemma DeleteFacts(s: State, id: nat, p: nat)
    requires Inv(s) && Home(s, id) && Enabled(s, Delete(id, p, false)) && DoDelete(s, id, p, false).ret == Normal
    ensures var t, ls := DoDelete(s, id, p, false).state, s.sessions[id];
      && Inv(t) && Home(t, id) && |ls| >= 2 && t.sessions[id] == Removed(ls, p)
      && 0 < |t.closed| == (if |s.closed| < MAX_ITEMS then |s.closed| + 1 else MAX_ITEMS)
      && t.closed[0] == ItemFor(t.closed[0].sequence, id, ls, p, t.closed[0].recovery)
      && (forall j :: 1 <= j < |t.closed| ==> t.closed[j] == s.closed[j - 1])
  {
    hide Inv, SessionsOk, HistoryOk, ItemsOk, Sorted, Once, AddedFirst, Free, Below, Removed, Push;
    hide WithRecovery, ItemFor;
    DeleteKeepsInv(s, id, p, false);
    InvFacts(s);
    DrawnKeepsInv(s);
    var s1 := Drawn(s);
    InvFacts(s1);
    var r, ls := s1.recovery.value, s.sessions[id];
    ItemFacts(s1.next, id, ls, p, r);
    var rls, item := AddedFirst(s1.sessions[r], ls[p].window).value, ItemFor(s1.next, id, ls, p, r);
    PushFacts(WithItem(s1, id, p, rls, item), item);
  }

  lemma InvFacts(s: State)
    requires Inv(s)
    ensures Base(s) && s.count == |s.closed| <= MAX_ITEMS && SessionIds(s)
    ensures forall i :: i in s.sessions ==> Sorted(s.sessions[i])
  {
  }

  lemma ItemFacts(q: nat, id: nat, ls: seq<Link>, p: nat, r: nat)
    requires p < |ls|
    ensures var item := ItemFor(q, id, ls, p, r);
      item.sequence == q && item.recovery == r && item.window == ls[p].window
  {
  }

  lemma PushFacts(s: State, item: Closed)
    requires s.count == |s.closed| <= MAX_ITEMS
    ensures var t := Push(s, item);
      && t == s.(closed := t.closed, count := t.count, evicted := t.evicted)
      && 0 < |t.closed| == (if |s.closed| < MAX_ITEMS then |s.closed| + 1 else MAX_ITEMS)
      && t.closed[0] == item && (forall j :: 1 <= j < |t.closed| ==> t.closed[j] == s.closed[j - 1])
  {
  }

  /** The latest item of a session that is there. */
  lemma ReopenFacts(t: State)
    requires Inv(t) && |t.closed| > 0
    ensures var item, t1 := t.closed[0], DoReopen(t, None).state;
      && Home(t, item.session)
      && (DoReopen(t, None).ret == Normal <==> Attached(t.sessions[item.session], item).Some?)
      && (DoReopen(t, None).ret == Error ==> t1 == t)
      && (DoReopen(t, None).ret == Normal ==>
        && Inv(t1) && Home(t1, item.session) && t1.closed == t.closed[1..]
        && t1.sessions[item.session] == Attached(t.sessions[item.session], item).value)
  {
    hide SessionsOk, HistoryOk, ItemsOk, Restore, Attached, Push;
    var item, popped := t.closed[0], t.(closed := t.closed[1..], count := t.count - 1);
    PopKeepsInv(t);
    RestoreFacts(popped, item, None);
    ReopenKeepsInv(t, None);
    if DoReopen(t, None).ret == Error {
      FailedReopenChangesNothing(t, None);
    }
  }

  lemma {:induction false} Stuck(t: State, k: nat)
    requires DoReopen(t, None) == Outcome(t, Error)
    ensures Reopened(t, k) == t
  {
    if k > 0 {
      Stuck(t, k - 1);
    }
  }

  lemma {:induction false} DeletedFacts(s: State, id: nat, ps: seq<nat>)
    requires Inv(s) && Home(s, id) && AllDeleted(s, id, ps) && |ps| <= MAX_ITEMS
    ensures var u := Deleted(s, id, ps);
      Inv(u) && Home(u, id) && |u.sessions[id]| == |s.sessions[id]| - |ps| && |u.closed| >= |ps|
    decreases |ps|
  {
    hide Inv, Enabled, DoDelete, Removed;
    if |ps| > 0 {
      DeletedFacts(s, id, ps[..|ps| - 1]);
      var t, p := Deleted(s, id, ps[..|ps| - 1]), ps[|ps| - 1];
      DeleteFacts(t, id, p);
    }
  }

  /** A state that has the same windows in the same order, and the same latest items. */
  ghost predicate Similar(t: State, u: State, id: nat, k: nat) {
    && Inv(t) && Home(t, id) && id in u.sessions && Order(t.sessions[id]) == Order(u.sessions[id])
    && k <= |t.closed| && k <= |u.closed| && t.closed[..k] == u.closed[..k]
  }

  lemma ReopenUndoesDelete(s: State, id: nat, p: nat, t: State, k: nat)
    requires Inv(s) && Home(s, id) && Enabled(s, Delete(id, p, false)) && DoDelete(s, id, p, false).ret == Normal
    requires 0 < k <= MAX_ITEMS && Similar(t, DoDelete(s, id, p, false).state, id, k) && k <= |s.closed| + 1
    ensures DoReopen(t, None).ret == Error ==> DoReopen(t, None).state == t
    ensures DoReopen(t, None).ret == Normal ==> Similar(DoReopen(t, None).state, s, id, k - 1)
  {
    hide HistoryOk, ItemsOk, DoDelete, DoReopen, Attached;
    var u := DoDelete(s, id, p, false).state;
    DeleteFacts(s, id, p);
    ReopenFacts(t);
    assert t.closed[0] == t.closed[..k][0] == u.closed[..k][0];
    if DoReopen(t, None).ret == Normal {
      PutBackInOrder(s.sessions[id], t.sessions[id], p, t.closed[0]);
      var t1 := DoReopen(t, None).state;
      forall j | 0 <= j < k - 1 ensures t1.closed[j] == s.closed[j] {
        assert t1.closed[j] == t.closed[..k][j + 1] == u.closed[..k][j + 1];
      }
    }
  }

  lemma {:induction false} ReopensUndoDeletes(s: State, id: nat, ps: seq<nat>, t: State)
    requires Inv(s) && Home(s, id) && AllDeleted(s, id, ps) && |ps| <= MAX_ITEMS
    requires Similar(t, Deleted(s, id, ps), id, |ps|)
    ensures id in Reopened(t, |ps|).sessions
    ensures AllReopened(t, |ps|) ==> Order(Reopened(t, |ps|).sessions[id]) == Order(s.sessions[id])
    ensures !AllReopened(t, |ps|) ==> |Reopened(t, |ps|).sessions[id]| < |s.sessions[id]|
    decreases |ps|
  {
    hide Inv, Enabled, DoDelete, DoReopen;
    if |ps| > 0 {
      var init, p := ps[..|ps| - 1], ps[|ps| - 1];
      DeletedFacts(s, id, init);
      DeletedFacts(s, id, ps);
      ReopenUndoesDelete(Deleted(s, id, init), id, p, t, |ps|);
      if DoReopen(t, None).ret == Normal {
        ReopensUndoDeletes(s, id, init, DoReopen(t, None).state);
      } else {
        Stuck(t, |ps|);
        assert |t.sessions[id]| == |Order(t.sessions[id])|;
      }
    }
  }

  // ----- when all reopens succeed -----

  /** The windows l are some of o, in the same order. */
  ghost predicate InOrder(o: seq<nat>, l: seq<nat>) {
    && (forall k :: 0 <= k < |l| ==> IndexOf(o, l[k]) < |o|)
    && (forall j, k :: 0 <= j < k < |l| ==> IndexOf(o, l[j]) < IndexOf(o, l[k]))
  }

  /** How many of the windows o are, or will be put, at or behind a link; all of them for the first link. */
  function Behind(o: seq<nat>, ls: seq<Link>, a: nat): nat
    requires a < |ls|
  {
    if a == 0 then |o| else |o| - IndexOf(o, ls[a].window)
  }

  /** The last window does not need room if it is there and has the largest index. */
  function Spare(o: seq<nat>, ls: seq<Link>): nat {
    if 0 < |ls| && 0 < |o| && ls[|ls| - 1] == Link(INT_MAX, o[|o| - 1]) then 1 else 0
  }

  /** There is room for all windows of o: from each link on there are as many indices below the largest
      as there will be windows. */
  ghost predicate Fits(o: seq<nat>, ls: seq<Link>) {
    forall a :: 0 <= a < |ls| ==> ls[a].idx + Behind(o, ls, a) <= INT_MAX + Spare(o, ls)
  }

  lemma {:induction false} InOrderGap(o: seq<nat>, l: seq<nat>, j: nat, k: nat)
    requires InOrder(o, l) && j <= k < |l|
    ensures IndexOf(o, l[j]) + (k - j) <= IndexOf(o, l[k])
    decreases k - j
  {
    if j < k {
      InOrderGap(o, l, j, k - 1);
    }
  }

  lemma InOrderBounds(o: seq<nat>, l: seq<nat>)
    requires InOrder(o, l)
    ensures forall k :: 0 <= k < |l| ==> k <= IndexOf(o, l[k]) <= |o| - (|l| - k)
    ensures |l| <= |o|
  {
    forall k | 0 <= k < |l| ensures k <= IndexOf(o, l[k]) <= |o| - (|l| - k) {
      InOrderGap(o, l, 0, k);
      InOrderGap(o, l, k, |l| - 1);
    }
    if |l| > 0 {
      InOrderGap(o, l, 0, |l| - 1);
    }
  }

  /** The links after putting a window at a place p of the order. */
  ghost predicate PutAt(ls: seq<Link>, r: seq<Link>, p: nat, n: nat, at: int, w: nat) {
    && |r| == |ls| + 1 && p + n <= |ls| && at + n < INT_MAX
    && (forall k :: 0 <= k < p ==> r[k] == ls[k])
    && r[p] == Link(at, w)
    && (forall k :: p <= k < p + n ==> ls[k].idx == at + (k - p) && r[k + 1] == Link(at + (k - p) + 1, ls[k].window))
    && (forall k :: p + n <= k < |ls| ==> r[k + 1] == ls[k])
  }

  lemma AddedPutsAt(ls: seq<Link>, p: nat, at: int, w: nat)
    requires Sorted(ls) && p <= |ls| && Below(ls, at) == p && Free(ls, at) < INT_MAX
    ensures PutAt(ls, AddedAt(ls, at, w).value, p, Run(ls, p, at), at, w)
  {
    hide Below, Run, Sorted, Shifted, Order, Inserted;
    ShiftedLinks(ls, at);
    ShiftedIsSorted(ls, at);
    InsertedLinks(Shifted(ls, at), at, w);
  }

  /** If there is room for all windows then there is a gap for the next. */
  lemma FitsNext(o: seq<nat>, ls: seq<Link>, p: nat, w: nat)
    requires Sorted(ls) && 0 < |ls| && p <= |ls| && Fits(o, ls)
    requires InOrder(o, Order(ls)[..p] + [w] + Order(ls)[p..])
    ensures Free(ls, if p > 0 then ls[p - 1].idx + 1 else ls[0].idx) < INT_MAX
  {
    hide Below, Run, Order, IndexOf;
    var a := if p > 0 then p - 1 else 0;
    var at := if p > 0 then ls[a].idx + 1 else ls[a].idx;
    var l := Order(ls)[..p] + [w] + Order(ls)[p..];
    var n := Run(ls, p, at);
    InOrderBounds(o, l);
    BelowAt(ls, a);
    assert p > 0 ==> l[a] == ls[a].window && |o| - IndexOf(o, l[a]) >= |ls| + 2 - p;
    assert at + (|ls| - p) + 1 <= INT_MAX + Spare(o, ls);
    assert n > 0 ==> ls[p + n - 1].idx == at + n - 1;
  }

  /** Putting a window in its place leaves room for the others exactly if there was room for all. */
  lemma FitsStep(o: seq<nat>, ls: seq<Link>, r: seq<Link>, p: nat, n: nat, w: nat)
    requires Sorted(ls) && Sorted(r) && 0 < |ls| && p <= |ls|
    requires PutAt(ls, r, p, n, if p > 0 then ls[p - 1].idx + 1 else ls[0].idx, w)
    requires InOrder(o, Order(r))
    ensures Fits(o, ls) <==> Fits(o, r)
  {
    hide Sorted, InOrder, PutAt, Fits;
    if Fits(o, ls) {
      FitsAfter(o, ls, r, p, n, w);
    }
    if Fits(o, r) {
      FittedBefore(o, ls, r, p, n, w);
    }
  }

  lemma FitsAfter(o: seq<nat>, ls: seq<Link>, r: seq<Link>, p: nat, n: nat, w: nat)
    requires Sorted(ls) && Sorted(r) && 0 < |ls| && p <= |ls|
    requires PutAt(ls, r, p, n, if p > 0 then ls[p - 1].idx + 1 else ls[0].idx, w)
    requires InOrder(o, Order(r)) && Fits(o, ls)
    ensures Fits(o, r)
  {
    hide IndexOf, InOrder;
    SameSpare(o, ls, r, p, n, w);
    InOrderBounds(o, Order(r));
    var at := if p > 0 then ls[p - 1].idx + 1 else ls[0].idx;
    forall k: nat | k < |r| ensures r[k].idx + Behind(o, r, k) <= INT_MAX + Spare(o, r) {
      assert k > p ==> r[k].window == ls[k - 1].window;
      if p <= k <= p + n {
        InOrderGap(o, Order(r), if p > 0 then p - 1 else 0, k);
        assert r[k].idx == at + (k - p);
      }
    }
  }

  lemma FittedBefore(o: seq<nat>, ls: seq<Link>, r: seq<Link>, p: nat, n: nat, w: nat)
    requires Sorted(ls) && Sorted(r) && 0 < |ls| && p <= |ls|
    requires PutAt(ls, r, p, n, if p > 0 then ls[p - 1].idx + 1 else ls[0].idx, w)
    requires InOrder(o, Order(r)) && Fits(o, r)
    ensures Fits(o, ls)
  {
    hide IndexOf, InOrder;
    SameSpare(o, ls, r, p, n, w);
    InOrderBounds(o, Order(r));
    forall k: nat | k < |ls| ensures ls[k].idx + Behind(o, ls, k) <= INT_MAX + Spare(o, ls) {
      var j := if k < p || k == 0 then k else k + 1;
      assert r[j].idx + Behind(o, r, j) <= INT_MAX + Spare(o, r);
    }
  }

  lemma SameSpare(o: seq<nat>, ls: seq<Link>, r: seq<Link>, p: nat, n: nat, w: nat)
    requires Sorted(ls) && Sorted(r) && 0 < |ls| && p <= |ls|
    requires PutAt(ls, r, p, n, if p > 0 then ls[p - 1].idx + 1 else ls[0].idx, w)
    requires InOrder(o, Order(r))
    ensures Spare(o, ls) == Spare(o, r)
  {
    hide IndexOf;
  }

  lemma AllInOrder(ls: seq<Link>)
    requires Once(ls)
    ensures InOrder(Order(ls), Order(ls))
  {
    forall k | 0 <= k < |ls| ensures IndexOf(Order(ls), Order(ls)[k]) == k {
      IndexIs(Order(ls), k);
    }
  }

  lemma FitsItself(ls: seq<Link>)
    requires Sorted(ls) && Once(ls)
    ensures Fits(Order(ls), ls)
  {
    hide IndexOf, InOrder, Once;
    var o := Order(ls);
    AllInOrder(ls);
    InOrderBounds(o, o);
    forall a: nat | a < |ls| ensures ls[a].idx + Behind(o, ls, a) <= INT_MAX + Spare(o, ls) {
      IndicesGrow(ls, a);
      assert IndexOf(o, o[a]) >= a;
    }
  }

  lemma {:induction false} IndicesGrow(ls: seq<Link>, a: nat)
    requires Sorted(ls) && a < |ls|
    ensures ls[a].idx + (|ls| - 1 - a) <= ls[|ls| - 1].idx
    decreases |ls| - a
  {
    if a + 1 < |ls| {
      IndicesGrow(ls, a + 1);
    }
  }

  lemma {:induction false} DeletedInOrder(s: State, id: nat, ps: seq<nat>)
    requires Inv(s) && Home(s, id) && AllDeleted(s, id, ps) && |ps| <= MAX_ITEMS
    ensures id in Deleted(s, id, ps).sessions
    ensures InOrder(Order(s.sessions[id]), Order(Deleted(s, id, ps).sessions[id]))
    decreases |ps|
  {
    hide HistoryOk, ItemsOk, SessionsOk, DoDelete, InOrder, Removed, Order;
    DeletedFacts(s, id, ps);
    if |ps| == 0 {
      SessionFacts(s, id);
      AllInOrder(s.sessions[id]);
    } else {
      var init, p := ps[..|ps| - 1], ps[|ps| - 1];
      DeletedInOrder(s, id, init);
      DeletedFacts(s, id, init);
      var t := Deleted(s, id, init);
      DeleteFacts(t, id, p);
      RemovedInOrder(Order(s.sessions[id]), t.sessions[id], p);
    }
  }

  lemma RemovedInOrder(o: seq<nat>, ls: seq<Link>, p: nat)
    requires p < |ls| && InOrder(o, Order(ls))
    ensures InOrder(o, Order(Removed(ls, p)))
  {
    hide IndexOf;
    RemovedFacts(ls, p);
  }

  /** One reopen: it succeeds if there is room for all, and then leaves room for the others exactly if
      there was room for all. */
  lemma ReopenFits(s: State, id: nat, p: nat, t: State, k: nat, o: seq<nat>)
    requires Inv(s) && Home(s, id) && Enabled(s, Delete(id, p, false)) && DoDelete(s, id, p, false).ret == Normal
    requires 0 < k <= MAX_ITEMS && Similar(t, DoDelete(s, id, p, false).state, id, k) && k <= |s.closed| + 1
    requires InOrder(o, Order(s.sessions[id]))
    ensures Fits(o, t.sessions[id]) ==> DoReopen(t, None).ret == Normal
    ensures DoReopen(t, None).ret == Normal ==>
      id in DoReopen(t, None).state.sessions
      && (Fits(o, t.sessions[id]) <==> Fits(o, DoReopen(t, None).state.sessions[id]))
  {
    hide HistoryOk, ItemsOk, DoDelete, DoReopen, AddedAt, AddedFirst, Fits, InOrder, Free, Run, Below, Place;
    var u, ls, now := DoDelete(s, id, p, false).state, s.sessions[id], t.sessions[id];
    DeleteFacts(s, id, p);
    ReopenFacts(t);
    assert t.closed[0] == t.closed[..k][0] == u.closed[..k][0];
    var item := t.closed[0];
    PlaceAmongNeighbours(ls, now, p, item);
    RemovedFacts(ls, p);
    PutBack(Order(ls), p);
    NextFits(now, item, p, o, Order(ls));
  }

  lemma NextFits(now: seq<Link>, item: Closed, p: nat, o: seq<nat>, l: seq<nat>)
    requires Sorted(now) && Once(now) && (Linked(now, item.left) || Linked(now, item.right))
    requires Place(now, item) == p && Linked(now, item.left) == (p > 0)
    requires p <= |now| && Order(now)[..p] + [item.window] + Order(now)[p..] == l && InOrder(o, l)
    ensures Fits(o, now) ==> Attached(now, item).Some?
    ensures Attached(now, item).Some? ==> (Fits(o, now) <==> Fits(o, Attached(now, item).value))
  {
    hide Fits, InOrder, Run, Below, Sorted, Once, Shifted, Inserted, PutAt, Order;
    var at := if p > 0 then now[p - 1].idx + 1 else now[0].idx;
    BelowAt(now, if p > 0 then p - 1 else 0);
    if Fits(o, now) {
      FitsNext(o, now, p, item.window);
    }
    if Attached(now, item).Some? {
      AttachedAtPlace(now, item);
      AddedPutsAt(now, p, at, item.window);
      FitsStep(o, now, Attached(now, item).value, p, Run(now, p, at), item.window);
    }
  }

  lemma {:induction false} AllReopenIfFits(s: State, id: nat, ps: seq<nat>, t: State)
    requires Inv(s) && Home(s, id) && AllDeleted(s, id, ps) && |ps| <= MAX_ITEMS
    requires Similar(t, Deleted(s, id, ps), id, |ps|)
    ensures AllReopened(t, |ps|) <==> Fits(Order(s.sessions[id]), t.sessions[id])
    decreases |ps|
  {
    hide HistoryOk, ItemsOk, Enabled, DoDelete, DoReopen, Fits, InOrder;
    if |ps| > 0 {
      var init, p := ps[..|ps| - 1], ps[|ps| - 1];
      DeletedFacts(s, id, init);
      DeletedInOrder(s, id, init);
      ReopenUndoesDelete(Deleted(s, id, init), id, p, t, |ps|);
      ReopenFits(Deleted(s, id, init), id, p, t, |ps|, Order(s.sessions[id]));
      if DoReopen(t, None).ret == Normal {
        AllReopenIfFits(s, id, init, DoReopen(t, None).state);
      }
    } else {
      FitsItself(t.sessions[id]);
    }
  }

  /** Up to 32 windows of a session that are deleted, and reopened as often, come back in their old order
      exactly if the links that are left leave room for all. They do whenever no index is within the
      number of windows of the largest. */
  lemma LastClosedFirstReopened(s: State, id: nat, ps: seq<nat>)
    requires Inv(s) && Home(s, id) && AllDeleted(s, id, ps) && |ps| <= MAX_ITEMS
    ensures var u := Deleted(s, id, ps);
      && id in u.sessions && id in Reopened(u, |ps|).sessions
      && (Order(Reopened(u, |ps|).sessions[id]) == Order(s.sessions[id])
        <==> Fits(Order(s.sessions[id]), u.sessions[id]))
      && ((forall a :: 0 <= a < |u.sessions[id]| ==> u.sessions[id][a].idx + |s.sessions[id]| <= INT_MAX) ==>
            Order(Reopened(u, |ps|).sessions[id]) == Order(s.sessions[id]))
  {
    hide HistoryOk, ItemsOk, Enabled, DoDelete, DoReopen;
    DeletedFacts(s, id, ps);
    ReopensUndoDeletes(s, id, ps, Deleted(s, id, ps));
    AllReopenIfFits(s, id, ps, Deleted(s, id, ps));
  }

  // ----- reserving and releasing -----

  ghost function Reserved(s: State, k: nat): State
    decreases k
  {
    if k == 0 then s else Reserved(DoReserve(s), k - 1)
  }

  /** Release several sequence numbers, the first first. */
  ghost function Released(s: State, qs: seq<nat>): State
    decreases |qs|
  {
    if |qs| == 0 then s else Released(DoRelease(s, qs[0]).state, qs[1..])
  }

  function Sequences(items: seq<Closed>): (qs: seq<nat>)
    ensures |qs| == |items| && forall k :: 0 <= k < |items| ==> qs[k] == items[k].sequence
  {
    seq(|items|, k requires 0 <= k < |items| => items[k].sequence)
  }

  function Reversed<T>(l: seq<T>): (r: seq<T>)
    ensures |r| == |l|
  {
    if |l| == 0 then [] else Reversed(l[1..]) + [l[0]]
  }

  lemma {:induction false} ReservedFacts(s: State, k: nat)
    requires k <= |s.closed|
    ensures Reserved(s, k) ==
      s.(closed := s.closed[k..], count := s.count - k, reserved := s.reserved + s.closed[..k])
    decreases k
  {
    if k > 0 {
      ReservedFacts(DoReserve(s), k - 1);
      assert s.closed[1..][k - 1..] == s.closed[k..];
      assert s.reserved + [s.closed[0]] + s.closed[1..][..k - 1] == s.reserved + s.closed[..k];
    } else {
      assert s.closed[0..] == s.closed && s.reserved + s.closed[..0] == s.reserved;
    }
  }

  /** The sequence numbers of the reserved items can be told apart. */
  ghost predicate Distinguished(l: seq<Closed>) {
    && (forall k :: 0 <= k < |l| ==> IsSequence(l[k].sequence))
    && (forall j, k :: 0 <= j < k < |l| ==> l[j].sequence != l[k].sequence)
  }

  lemma {:induction false} FindAt(l: seq<Closed>, k: nat)
    requires Distinguished(l) && k < |l|
    ensures Find(l, l[k].sequence) == k
  {
    if k > 0 {
      FindAt(l[1..], k - 1);
    }
  }

  lemma ReleaseOne(s: State, k: nat)
    requires Distinguished(s.reserved) && k < |s.reserved| && s.count == |s.closed| < MAX_ITEMS
    ensures DoRelease(s, s.reserved[k].sequence).state ==
      s.(closed := [s.reserved[k]] + s.closed, count := s.count + 1, reserved := s.reserved[..k] + s.reserved[k + 1..])
  {
    FindAt(s.reserved, k);
  }

  lemma ReleaseFirst(s: State, keep: seq<Closed>, items: seq<Closed>)
    requires |items| > 0 && s.reserved == keep + items && Distinguished(s.reserved) && s.count == |s.closed| < MAX_ITEMS
    ensures var t := s.(closed := [items[0]] + s.closed, count := s.count + 1, reserved := keep + items[1..]);
      DoRelease(s, items[0].sequence).state == t && Distinguished(t.reserved)
  {
    ReleaseOne(s, |keep|);
    assert s.reserved[..|keep|] + s.reserved[|keep| + 1..] == keep + items[1..];
  }

  /** Released in the order of their reservation, items come back in the opposite order. */
  lemma {:induction false} ReleaseInOrder(s: State, keep: seq<Closed>, items: seq<Closed>)
    requires s.reserved == keep + items && Distinguished(s.reserved)
    requires s.count == |s.closed| && s.count + |items| <= MAX_ITEMS
    ensures Released(s, Sequences(items)) ==
      s.(closed := Reversed(items) + s.closed, count := s.count + |items|, reserved := keep)
    decreases |items|
  {
    hide Distinguished, DoRelease;
    if |items| > 0 {
      var t := s.(closed := [items[0]] + s.closed, count := s.count + 1, reserved := keep + items[1..]);
      ReleaseFirst(s, keep, items);
      ReleaseInOrder(t, keep, items[1..]);
      assert Sequences(items)[1..] == Sequences(items[1..]);
      Regroup(Reversed(items[1..]), items[0], s.closed);
    }
  }

  lemma Regroup<T>(a: seq<T>, x: T, b: seq<T>)
    ensures a + ([x] + b) == a + [x] + b
  {
  }

  /** Released in the opposite order, they come back in their own order. */
  lemma {:induction false} ReleaseBackwards(s: State, keep: seq<Closed>, items: seq<Closed>)
    requires s.reserved == keep + items && Distinguished(s.reserved)
    requires s.count == |s.closed| && s.count + |items| <= MAX_ITEMS
    ensures Released(s, Reversed(Sequences(items))) ==
      s.(closed := items + s.closed, count := s.count + |items|, reserved := keep)
    decreases |items|
  {
    if |items| > 0 {
      var n := |items| - 1;
      var last := items[n];
      ReleaseOne(s, |keep| + n);
      var t := DoRelease(s, last.sequence).state;
      assert t.reserved == keep + items[..n];
      ReleaseBackwards(t, keep, items[..n]);
      assert Sequences(items) == Sequences(items[..n]) + [last.sequence];
      ReversedLast(Sequences(items[..n]), last.sequence);
      assert items + s.closed == items[..n] + ([last] + s.closed);
    }
  }

  lemma {:induction false} ReversedLast<T>(l: seq<T>, x: T)
    ensures Reversed(l + [x]) == [x] + Reversed(l)
  {
    if |l| > 0 {
      ReversedLast(l[1..], x);
      assert (l + [x])[1..] == l[1..] + [x];
    }
  }

  /** In every run, as long as the counter has not wrapped: reserving the k latest items and releasing them
      in the opposite order changes nothing at all; in the same order it reverses them on the stack and
      changes nothing else. */
  lemma ReserveThenRelease(start: State, steps: seq<Step>, k: nat)
    requires IsStart(start) && IsRun(start, steps)
    requires k <= |RunOf(start, steps).closed| && RunOf(start, steps).drawn < UINT_RANGE
    ensures var s := RunOf(start, steps);
      var qs := Sequences(s.closed[..k]);
      && Released(Reserved(s, k), Reversed(qs)) == s
      && Released(Reserved(s, k), qs) == s.(closed := Reversed(s.closed[..k]) + s.closed[k..])
  {
    hide IsStart, IsRun, RunOf, Distinguished, Released, Sequences, Reversed;
    ItemsAreConserved(start, steps);
    AllDistinguished(RunOf(start, steps));
    ReleaseReserved(RunOf(start, steps), k);
  }

  lemma ReleaseReserved(s: State, k: nat)
    requires s.count == |s.closed| <= MAX_ITEMS && k <= |s.closed| && Distinguished(s.reserved + s.closed)
    ensures var qs := Sequences(s.closed[..k]);
      && Released(Reserved(s, k), Reversed(qs)) == s
      && Released(Reserved(s, k), qs) == s.(closed := Reversed(s.closed[..k]) + s.closed[k..])
  {
    hide Distinguished, Released, Sequences, Reversed;
    ReservedFacts(s, k);
    var t, latest := Reserved(s, k), s.closed[..k];
    assert Distinguished(t.reserved) by { FirstDistinguished(s.reserved + s.closed, t.reserved); }
    ReleaseInOrder(t, s.reserved, latest);
    ReleaseBackwards(t, s.reserved, latest);
    assert latest + s.closed[k..] == s.closed;
  }

  /** The items of both lists have different numbers if none of them is in two places. */
  lemma AllDistinguished(s: State)
    requires multiset(s.pushed)
      == multiset(s.closed) + multiset(s.reserved) + multiset(s.restored) + multiset(s.evicted)
    requires s.next < UINT_RANGE && forall i :: InLists(s, i) ==> 1 <= i.sequence <= s.next
    requires forall i :: i in s.pushed ==> multiset(s.pushed)[i] == 1
    requires forall i, j :: InLists(s, i) && InLists(s, j) && i.sequence == j.sequence ==> i == j
    ensures Distinguished(s.reserved + s.closed)
  {
    var l := s.reserved + s.closed;
    assert multiset(l) == multiset(s.closed) + multiset(s.reserved);
    assert multiset(l) <= multiset(s.pushed);
    forall i | i in l ensures InLists(s, i) && multiset(l)[i] <= 1 {
      assert i in multiset(l);
      assert i in multiset(s.pushed);
    }
    OnceEach(l);
  }

  lemma OnceEach<T>(l: seq<T>)
    requires forall x :: x in l ==> multiset(l)[x] <= 1
    ensures Distinct(l)
  {
    forall j, k | 0 <= j < k < |l| ensures l[j] != l[k] {
      assert l == l[..k] + l[k..] && l[j] in l[..k] && l[k] in l[k..];
      assert multiset(l) == multiset(l[..k]) + multiset(l[k..]);
      assert l[j] == l[k] ==> multiset(l)[l[j]] >= 2;
      assert l[j] in l;
    }
  }

  lemma FirstDistinguished(l: seq<Closed>, first: seq<Closed>)
    requires Distinguished(l) && first <= l
    ensures Distinguished(first)
  {
  }
}
