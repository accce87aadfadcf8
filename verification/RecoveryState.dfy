/** Recovery of closed windows as a state machine on values: deleted windows are kept alive in a
    recovery session and put back among their old neighbours. */
module RecoveryState {
  import opened Common
  import opened Winlinks

  const MAX_ITEMS := 32

  /** A closed window: where it was in its session, its neighbours, and the session it is kept in. */
  datatype Closed = Closed(
    sequence: nat, session: nat, window: nat, index: int, position: nat,
    left: Option<nat>, right: Option<nat>, recovery: nat)

  /** The two lists, newest first and oldest first, the two counters, the sessions by their ids and
      which of them has the recovery session's name. The rest is history since the last clear: how many
      sequence numbers were drawn, and the items pushed, restored and evicted. */
  datatype State = State(
    closed: seq<Closed>, reserved: seq<Closed>, count: int, next: nat,
    sessions: map<nat, seq<Link>>, recovery: Option<nat>, nextSession: nat,
    drawn: nat, pushed: seq<Closed>, restored: seq<Closed>, evicted: seq<Closed>)

  datatype Retval = Normal | Error

  // ----- where a window is put back -----

  function ItemFor(sequence: nat, session: nat, ls: seq<Link>, p: nat, recovery: nat): Closed
    requires p < |ls|
  {
    Closed(sequence, session, ls[p].window, ls[p].idx, p,
      if p > 0 then Some(ls[p - 1].window) else None,
      if p + 1 < |ls| then Some(ls[p + 1].window) else None, recovery)
  }

  ghost function Windows(ls: seq<Link>): set<nat> {
    set w | w in Order(ls)
  }

  predicate Linked(ls: seq<Link>, w: Option<nat>) {
    w.Some? && Position(ls, w.value) < |ls|
  }

  /** Behind the old left neighbour, else before the old right one, else at the old position; behind the
      last position at the first free index. */
  function Attached(ls: seq<Link>, item: Closed): (r: Option<seq<Link>>)
    ensures r.Some? ==> |r.value| == |ls| + 1
  {
    if Linked(ls, item.left) then AddedAt(ls, ls[Position(ls, item.left.value)].idx + 1, item.window)
    else if Linked(ls, item.right) then AddedAt(ls, ls[Position(ls, item.right.value)].idx, item.window)
    else if item.position < |ls| then AddedAt(ls, ls[item.position].idx, item.window)
    else AddedFirst(ls, item.window)
  }

  /** The place in the order that the old neighbours determine, else the old position, else the place of
      the first free index. */
  function Place(ls: seq<Link>, item: Closed): nat {
    if Linked(ls, item.left) then Position(ls, item.left.value) + 1
    else if Linked(ls, item.right) then Position(ls, item.right.value)
    else if item.position < |ls| then item.position
    else Below(ls, Free(ls, 0))
  }

  lemma AttachedAtPlace(ls: seq<Link>, item: Closed)
    requires Sorted(ls) && Attached(ls, item).Some?
    ensures var r, p := Attached(ls, item).value, Place(ls, item);
      && p <= |ls| && Sorted(r)
      && Order(r) == Order(ls)[..p] + [item.window] + Order(ls)[p..]
  {
    hide AddedAt, AddedFirst, Free;
    var p := Place(ls, item);
    if Linked(ls, item.left) {
      BelowAt(ls, p - 1);
      AddedInOrder(ls, ls[p - 1].idx + 1, item.window);
    } else if Linked(ls, item.right) || item.position < |ls| {
      BelowAt(ls, p);
      AddedInOrder(ls, ls[p].idx, item.window);
    } else {
      FirstInOrder(ls, item.window);
    }
  }

  /** A window that is put back stands right behind its old left neighbour; if that is not there, right before
      its old right one; if neither is there, at its old position; and if that is behind the last one, behind
      the links whose indices run from 0 on without a gap. All others stand as before. */
  lemma AttachedInPlace(ls: seq<Link>, item: Closed)
    requires Sorted(ls) && Attached(ls, item).Some?
    ensures var o, r, w := Order(ls), Order(Attached(ls, item).value), item.window;
      if item.left.Some? && item.left.value in o then
        exists k :: 0 < k <= |o| && o[k - 1] == item.left.value && r == o[..k] + [w] + o[k..]
      else if item.right.Some? && item.right.value in o then
        exists k :: 0 <= k < |o| && o[k] == item.right.value && r == o[..k] + [w] + o[k..]
      else if item.position < |o| then r == o[..item.position] + [w] + o[item.position..]
      else
        exists k :: 0 <= k <= |o| && (forall j :: 0 <= j < k ==> ls[j].idx == j) && (k < |o| ==> ls[k].idx != k)
          && r == o[..k] + [w] + o[k..]
  {
    hide Attached, Below, Run, Order, Linked, Position, Sorted;
    AttachedAtPlace(ls, item);
    var o, r, w, p := Order(ls), Order(Attached(ls, item).value), item.window, Place(ls, item);
    IsLinked(ls, item.left);
    IsLinked(ls, item.right);
    assert r == o[..p] + [w] + o[p..];
    if !Linked(ls, item.left) && !Linked(ls, item.right) && item.position >= |ls| {
      FirstGap(ls);
    }
  }

  lemma IsLinked(ls: seq<Link>, w: Option<nat>)
    ensures Linked(ls, w) <==> w.Some? && w.value in Order(ls)
    ensures Linked(ls, w) ==> Position(ls, w.value) < |ls| && Order(ls)[Position(ls, w.value)] == w.value
  {
    hide Order, Position;
    if w.Some? && w.value in Order(ls) {
      var k :| 0 <= k < |ls| && Order(ls)[k] == w.value;
      assert ls[k].window == w.value;
    }
  }

  /** The place of the first free index. */
  lemma FirstGap(ls: seq<Link>)
    requires Sorted(ls)
    ensures var p := Below(ls, Free(ls, 0));
      (forall j :: 0 <= j < p ==> ls[j].idx == j) && (p < |ls| ==> ls[p].idx != p)
  {
    hide Below, Run;
    BelowIs(ls, 0, 0);
    RunFacts(ls, 0);
    BelowIs(ls, Free(ls, 0), Run(ls, 0, 0));
  }

  /** It is refused exactly if no index is free below the largest one, from the one behind the left neighbour
      on, or from that of the right neighbour or of the link at its old position; or if none at all is. */
  lemma AttachedIfFree(ls: seq<Link>, item: Closed)
    requires Sorted(ls)
    ensures Attached(ls, item).None? <==>
      if Linked(ls, item.left) then
        forall i :: ls[Position(ls, item.left.value)].idx + 1 <= i < INT_MAX ==> Used(ls, i)
      else if Linked(ls, item.right) then
        forall i :: ls[Position(ls, item.right.value)].idx <= i < INT_MAX ==> Used(ls, i)
      else if item.position < |ls| then forall i :: ls[item.position].idx <= i < INT_MAX ==> Used(ls, i)
      else forall i :: 0 <= i <= INT_MAX ==> Used(ls, i)
  {
    hide AddedAt, AddedFirst, Used, Position, Linked, Sorted;
    IsLinked(ls, item.left);
    IsLinked(ls, item.right);
    if Linked(ls, item.left) {
      AddedIfFree(ls, ls[Position(ls, item.left.value)].idx + 1, item.window);
    } else if Linked(ls, item.right) {
      AddedIfFree(ls, ls[Position(ls, item.right.value)].idx, item.window);
    } else if item.position < |ls| {
      AddedIfFree(ls, ls[item.position].idx, item.window);
    } else {
      AddedFirstIfFree(ls, item.window);
    }
  }

  lemma AddedIfFree(ls: seq<Link>, idx: int, w: nat)
    requires Sorted(ls)
    ensures AddedAt(ls, idx, w).None? <==> forall i :: idx <= i < INT_MAX ==> Used(ls, i)
  {
    hide Free, Used, Inserted, Shifted, Sorted;
    FreeIsFirst(ls, idx);
  }

  lemma AddedFirstIfFree(ls: seq<Link>, w: nat)
    requires Sorted(ls)
    ensures AddedFirst(ls, w).None? <==> forall i :: 0 <= i <= INT_MAX ==> Used(ls, i)
  {
    hide Free, Used, Inserted, Sorted;
    FreeIsFirst(ls, 0);
  }

  lemma FirstInOrder(ls: seq<Link>, w: nat)
    requires Sorted(ls) && AddedFirst(ls, w).Some?
    ensures var r, p := AddedFirst(ls, w).value, Below(ls, Free(ls, 0));
      Sorted(r) && p <= |ls| && Order(r) == Order(ls)[..p] + [w] + Order(ls)[p..]
  {
    hide Below, Run, Sorted, Inserted, Order;
    FreeIsFirst(ls, 0);
    InsertedInOrder(ls, Free(ls, 0), w);
  }

  /** Behind the last position the new link takes the first free index. It comes last exactly if the
      session uses the indices from 0 on without a gap. */
  lemma LastIfNoGap(ls: seq<Link>, item: Closed)
    requires Sorted(ls) && item.window !in Windows(ls) && Attached(ls, item).Some?
    requires !Linked(ls, item.left) && !Linked(ls, item.right) && item.position >= |ls|
    ensures Order(Attached(ls, item).value) == Order(ls) + [item.window]
      <==> forall k :: 0 <= k < |ls| ==> ls[k].idx == k
  {
    hide Below, Run, AddedFirst, Order, Position;
    AttachedAtPlace(ls, item);
    var o, w, p := Order(ls), item.window, Below(ls, Free(ls, 0));
    BelowIs(ls, 0, 0);
    RunFacts(ls, 0);
    if p < |ls| {
      assert (o + [w])[p] == o[p] && o[p] in Windows(ls);
    } else {
      assert o[..p] + [w] + o[p..] == o + [w];
      IndicesApart(ls);
    }
  }

  lemma {:induction false} IndicesApart(ls: seq<Link>)
    requires Sorted(ls)
    ensures |ls| > 0 ==> ls[|ls| - 1].idx >= |ls| - 1
  {
    if |ls| > 1 {
      IndicesApart(ls[..|ls| - 1]);
    }
  }

  /** When a deleted window cannot come back: it had the largest index and its left neighbour the one
      before, or it was the first and all indices from its right neighbour's to the largest but one are used. */
  ghost predicate NoGapLeft(ls: seq<Link>, p: nat)
    requires p < |ls| && |ls| >= 2
  {
    if p > 0 then ls[p].idx == INT_MAX && ls[p - 1].idx == INT_MAX - 1
    else forall i :: ls[1].idx <= i < INT_MAX ==> Used(ls, i)
  }

  lemma PositionAt(ls: seq<Link>, k: nat)
    requires Once(ls) && k < |ls|
    ensures Position(ls, ls[k].window) == k
  {
  }

  lemma RemovedFacts(ls: seq<Link>, p: nat)
    requires p < |ls|
    ensures Sorted(ls) ==>
      && Sorted(Removed(ls, p))
      && forall i :: Used(Removed(ls, p), i) <==> Used(ls, i) && i != ls[p].idx
    ensures Once(ls) ==> Once(Removed(ls, p))
    ensures Order(Removed(ls, p)) == Order(ls)[..p] + Order(ls)[p + 1..]
  {
    hide Sorted, Once, Used;
    if Sorted(ls) { RemovedSorted(ls, p); }
    if Once(ls) { RemovedOnce(ls, p); }
  }

  lemma RemovedOnce(ls: seq<Link>, p: nat)
    requires p < |ls| && Once(ls)
    ensures Once(Removed(ls, p))
  {
    var r := Removed(ls, p);
    assert forall k :: 0 <= k < |r| ==> r[k] == ls[if k < p then k else k + 1];
  }

  lemma RemovedSorted(ls: seq<Link>, p: nat)
    requires p < |ls| && Sorted(ls)
    ensures Sorted(Removed(ls, p)) && forall i :: Used(Removed(ls, p), i) <==> Used(ls, i) && i != ls[p].idx
  {
    var r := Removed(ls, p);
    assert forall k :: 0 <= k < |r| ==> r[k] == ls[if k < p then k else k + 1];
    forall i | Used(ls, i) && i != ls[p].idx ensures Used(r, i) {
      var k :| 0 <= k < |ls| && ls[k].idx == i;
      assert r[if k < p then k else k - 1].idx == i;
    }
  }

  /** The neighbours in the order, whatever the indices are now. */
  lemma PlaceAmongNeighbours(ls: seq<Link>, now: seq<Link>, p: nat, item: Closed)
    requires Once(ls) && p < |ls| && |ls| >= 2
    requires item == ItemFor(item.sequence, item.session, ls, p, item.recovery)
    requires Order(now) == Order(Removed(ls, p))
    ensures Linked(now, item.left) || Linked(now, item.right)
    ensures Place(now, item) == p && Linked(now, item.left) == (p > 0)
  {
    RemovedFacts(ls, p);
    assert Once(now) by {
      assert forall k :: 0 <= k < |now| ==> now[k].window == Order(Removed(ls, p))[k];
    }
    if p > 0 {
      assert now[p - 1].window == Order(now)[p - 1] == ls[p - 1].window;
      PositionAt(now, p - 1);
    } else {
      assert now[0].window == Order(now)[0] == ls[1].window;
      PositionAt(now, 0);
    }
  }

  /** A window that is put back while the others stand in the same order gets its old place, if it can
      be put back at all. */
  lemma PutBackInOrder(ls: seq<Link>, now: seq<Link>, p: nat, item: Closed)
    requires Once(ls) && p < |ls| && |ls| >= 2 && Sorted(now)
    requires item == ItemFor(item.sequence, item.session, ls, p, item.recovery)
    requires Order(now) == Order(Removed(ls, p)) && Attached(now, item).Some?
    ensures Sorted(Attached(now, item).value) && Order(Attached(now, item).value) == Order(ls)
  {
    hide Attached, Place, Sorted, Once;
    PlaceAmongNeighbours(ls, now, p, item);
    AttachedAtPlace(now, item);
    RemovedFacts(ls, p);
    PutBack(Order(ls), p);
  }

  lemma PutBack<T>(o: seq<T>, p: nat)
    requires p < |o|
    ensures var rest := o[..p] + o[p + 1..]; rest[..p] + [o[p]] + rest[p..] == o
  {
  }

  lemma GapAfterDelete(ls: seq<Link>, p: nat)
    requires Sorted(ls) && p < |ls| && |ls| >= 2
    ensures Free(Removed(ls, p), if p > 0 then ls[p - 1].idx + 1 else ls[1].idx) < INT_MAX <==> !NoGapLeft(ls, p)
  {
    hide Free;
    var now := Removed(ls, p);
    RemovedFacts(ls, p);
    var at := if p > 0 then ls[p - 1].idx + 1 else ls[1].idx;
    FreeIsFirst(now, at);
    if p == 0 {
      assert forall i :: ls[1].idx <= i < INT_MAX ==> (Used(now, i) <==> Used(ls, i));
      assert Free(now, at) >= INT_MAX ==> forall i :: at <= i < INT_MAX ==> Used(now, i);
    } else if ls[p].idx < INT_MAX {
      assert !Used(now, ls[p].idx);
    } else if ls[p - 1].idx < INT_MAX - 1 {
      assert !Used(now, at);
    }
  }

  /** Deleting a window and putting it back right away restores the order, exactly if there is a gap. */
  lemma DeletePutBack(ls: seq<Link>, p: nat, item: Closed)
    requires Sorted(ls) && Once(ls) && p < |ls| && |ls| >= 2
    requires item == ItemFor(item.sequence, item.session, ls, p, item.recovery)
    ensures Attached(Removed(ls, p), item).Some? <==> !NoGapLeft(ls, p)
    ensures !NoGapLeft(ls, p) ==> Order(Attached(Removed(ls, p), item).value) == Order(ls)
  {
    hide Free, Shifted, Inserted, NoGapLeft;
    var now := Removed(ls, p);
    RemovedFacts(ls, p);
    PlaceAmongNeighbours(ls, now, p, item);
    GapAfterDelete(ls, p);
    if Attached(now, item).Some? {
      PutBackInOrder(ls, now, p, item);
    }
  }

  /** The last of two windows with the largest indices does not come back. */
  lemma LargestIndexIsLost()
    ensures var ls := [Link(INT_MAX - 1, 1), Link(INT_MAX, 2)];
      Sorted(ls) && Once(ls) && Attached(Removed(ls, 1), ItemFor(1, 0, ls, 1, 1)) == None
  {
    var ls := [Link(INT_MAX - 1, 1), Link(INT_MAX, 2)];
    DeletePutBack(ls, 1, ItemFor(1, 0, ls, 1, 1));
  }

  // ----- the commands -----

  datatype Outcome = Outcome(state: State, ret: Retval)

  /** A new item on the stack; what does not fit falls off its end. */
  function Push(s: State, item: Closed): State {
    var closed := [item] + s.closed;
    if s.count + 1 > MAX_ITEMS then
      s.(closed := closed[..|closed| - 1], evicted := s.evicted + [closed[|closed| - 1]])
    else s.(closed := closed, count := s.count + 1)
  }

  /** The recovery session, made if there is none. */
  function WithRecovery(s: State): (r: State)
    ensures r.recovery.Some?
  {
    if s.recovery.Some? then s
    else s.(
      sessions := s.sessions[s.nextSession := []], recovery := Some(s.nextSession), nextSession := s.nextSession + 1)
  }

  /** The sessions after the window at position p of one of them was linked in one, the recovery session
      or its old one, at a place of the order, and then unlinked where it was. */
  function Moved(sessions: map<nat, seq<Link>>, from: nat, p: nat, to: nat, ls: seq<Link>, place: nat):
    map<nat, seq<Link>>
    requires from in sessions && to in sessions && p < |sessions[from]| && |ls| == |sessions[to]| + 1
  {
    sessions[to := ls][from :=
      if from == to then Removed(ls, if place <= p then p + 1 else p) else Removed(sessions[from], p)]
  }

  /** Ids of new sessions are not in use, and the recovery session is there. */
  predicate SessionIds(s: State) {
    && (forall i :: i in s.sessions ==> i < s.nextSession)
    && (s.recovery.Some? ==> s.recovery.value in s.sessions)
  }

  /** A window is linked in the recovery session, unlinked where it was, and its item is pushed. */
  function KeepWindow(s: State, id: nat, p: nat, item: Closed): Outcome
    requires id in s.sessions && p < |s.sessions[id]| && s.recovery.Some? && s.recovery.value in s.sessions
  {
    var r := s.recovery.value;
    match AddedFirst(s.sessions[r], item.window)
    case None => Outcome(s, Error)
    case Some(rls) =>
      var t := Moved(s.sessions, id, p, r, rls, Below(s.sessions[r], Free(s.sessions[r], 0)));
      Outcome(Push(s.(sessions := t, pushed := s.pushed + [item]), item), Normal)
  }

  /** A sequence number is drawn, and there is a recovery session. */
  function Drawn(s: State): (r: State)
    ensures r.recovery.Some?
  {
    WithRecovery(s.(next := (s.next + 1) % UINT_RANGE, drawn := s.drawn + 1))
  }

  /** Delete the window at a position of a session, even of the recovery session. A window that looks
      untouched is not kept. */
  function DoDelete(s: State, id: nat, p: nat, untouched: bool): Outcome
    requires id in s.sessions && p < |s.sessions[id]| && SessionIds(s)
  {
    var ls := s.sessions[id];
    if |ls| == 1 then Outcome(s, Error)
    else if untouched then Outcome(s.(sessions := s.sessions[id := Removed(ls, p)]), Normal)
    else
      var s1 := Drawn(s);
      KeepWindow(s1, id, p, ItemFor(s1.next, id, ls, p, s1.recovery.value))
  }

  /** A link is removed, and its session destroyed when it becomes empty. */
  function Unlinked(s: State, id: nat, p: nat): State
    requires id in s.sessions && p < |s.sessions[id]|
  {
    var left := Removed(s.sessions[id], p);
    if |left| == 0 then
      s.(sessions := s.sessions - {id}, recovery := if s.recovery == Some(id) then None else s.recovery)
    else s.(sessions := s.sessions[id := left])
  }

  /** A window that is linked in the recovery session its item recorded, at position p, is put back
      into a session, the same one if that is its home. */
  function RestoreInto(s: State, item: Closed, dst: nat, p: nat): Option<State>
    requires dst in s.sessions && item.recovery in s.sessions && p < |s.sessions[item.recovery]|
  {
    match Attached(s.sessions[dst], item)
    case None => None
    case Some(ls) =>
      var twice := dst == item.recovery && Place(s.sessions[dst], item) <= p;
      Some(Unlinked(s.(sessions := s.sessions[dst := ls], restored := s.restored + [item]),
        item.recovery, if twice then p + 1 else p))
  }

  /** Put a window back; nothing happens if that is not possible. The fallback is the session that
      takes the window if its own is gone. */
  function Restore(s: State, item: Closed, fallback: Option<nat>): Option<State>
    requires fallback.Some? ==> fallback.value in s.sessions
  {
    var dst := if item.session in s.sessions then Some(item.session) else fallback;
    if dst.None? || item.recovery !in s.sessions || !Linked(s.sessions[item.recovery], Some(item.window)) then None
    else RestoreInto(s, item, dst.value, Position(s.sessions[item.recovery], item.window))
  }

  function DoReopen(s: State, fallback: Option<nat>): Outcome
    requires fallback.Some? ==> fallback.value in s.sessions
  {
    if |s.closed| == 0 then Outcome(s, Normal)
    else
      var item, popped := s.closed[0], s.(closed := s.closed[1..], count := s.count - 1);
      match Restore(popped, item, fallback)
      case None => Outcome(Push(popped, item), Error)
      case Some(s1) => Outcome(s1, Normal)
  }

  function DoReserve(s: State): State {
    if |s.closed| == 0 then s
    else s.(closed := s.closed[1..], count := s.count - 1, reserved := s.reserved + [s.closed[0]])
  }

  /** Where the first item with a sequence number is, or the length of the list. */
  function Find(l: seq<Closed>, q: nat): (k: nat)
    ensures k <= |l| && (k < |l| ==> l[k].sequence == q)
    ensures forall j :: 0 <= j < k ==> l[j].sequence != q
  {
    if |l| == 0 || l[0].sequence == q then 0 else 1 + Find(l[1..], q)
  }

  function TakeReserved(s: State, k: nat): State
    requires k < |s.reserved|
  {
    s.(reserved := s.reserved[..k] + s.reserved[k + 1..])
  }

  predicate IsSequence(q: int) {
    1 <= q < UINT_RANGE
  }

  function DoClaim(s: State, q: int, fallback: Option<nat>): Outcome
    requires fallback.Some? ==> fallback.value in s.sessions
  {
    if !IsSequence(q) then Outcome(s, Error)
    else
      var k := Find(s.reserved, q);
      if k == |s.reserved| then Outcome(s, Normal)
      else match Restore(TakeReserved(s, k), s.reserved[k], fallback)
        case None => Outcome(Push(TakeReserved(s, k), s.reserved[k]), Error)
        case Some(s1) => Outcome(s1, Normal)
  }

  function DoRelease(s: State, q: int): Outcome {
    if !IsSequence(q) then Outcome(s, Error)
    else
      var k := Find(s.reserved, q);
      if k == |s.reserved| then Outcome(s, Normal)
      else Outcome(Push(TakeReserved(s, k), s.reserved[k]), Normal)
  }

  /** The recovery session is destroyed, and all items are forgotten. */
  function DoClear(s: State): State {
    s.(closed := [], reserved := [], count := 0, next := 0,
       sessions := if s.recovery.Some? then s.sessions - {s.recovery.value} else s.sessions, recovery := None,
       drawn := 0, pushed := [], restored := [], evicted := [])
  }

  // ----- runs -----

  datatype Step =
    | Delete(session: nat, position: nat, untouched: bool)
    | Reopen(fallback: Option<nat>)
    | Reserve
    | Claim(sequence: int, fallback: Option<nat>)
    | Release(sequence: int)
    | Clear

  /** A session other than the recovery session. */
  ghost predicate Home(s: State, id: nat) {
    id in s.sessions && s.recovery != Some(id)
  }

  /** A target is linked in any session, and a fallback is a home session. */
  ghost predicate Enabled(s: State, st: Step) {
    SessionIds(s) &&
    match st
    case Delete(id, p, _) => id in s.sessions && p < |s.sessions[id]|
    case Reopen(fallback) => fallback.Some? ==> Home(s, fallback.value)
    case Claim(_, fallback) => fallback.Some? ==> Home(s, fallback.value)
    case _ => true
  }

  ghost function Apply(s: State, st: Step): State
    requires Enabled(s, st)
  {
    match st
    case Delete(id, p, untouched) => DoDelete(s, id, p, untouched).state
    case Reopen(fallback) => DoReopen(s, fallback).state
    case Reserve => DoReserve(s)
    case Claim(q, fallback) => DoClaim(s, q, fallback).state
    case Release(q) => DoRelease(s, q).state
    case Clear => DoClear(s)
  }

  // ----- invariant -----

  /** Every window is linked once, in one session. */
  ghost predicate SessionsOk(sessions: map<nat, seq<Link>>) {
    && (forall i :: i in sessions ==> Sorted(sessions[i]) && Once(sessions[i]))
    && (forall i, j :: i in sessions && j in sessions && i != j ==> Windows(sessions[i]) !! Windows(sessions[j]))
  }

  /** The window of a closed item is linked in the recovery session that the item recorded. */
  ghost predicate Kept(s: State, item: Closed) {
    && s.recovery == Some(item.recovery) && item.recovery in s.sessions
    && item.window in Windows(s.sessions[item.recovery])
    && Home(s, item.session)
  }

  ghost predicate ItemsOk(s: State, items: multiset<Closed>) {
    && (forall i :: i in items ==> Kept(s, i) && items[i] == 1)
    && (forall i, j :: i in items && j in items && i.window == j.window ==> i == j)
  }

  /** Everything that was pushed is in hand, closed, reserved, restored or evicted, and has its own
      sequence number for as long as the counter has not wrapped. */
  ghost predicate HistoryOk(s: State, items: multiset<Closed>) {
    && multiset(s.pushed) == items + multiset(s.restored) + multiset(s.evicted)
    && s.next == s.drawn % UINT_RANGE
    && (s.drawn < UINT_RANGE ==>
      && (forall k :: 0 <= k < |s.pushed| ==> 1 <= s.pushed[k].sequence <= s.drawn)
      && (forall j, k :: 0 <= j < k < |s.pushed| ==> s.pushed[j].sequence < s.pushed[k].sequence))
  }

  /** What every step keeps, while some items are in neither list. */
  ghost predicate BaseWith(s: State, hand: multiset<Closed>) {
    && s.count == |s.closed| <= MAX_ITEMS
    && SessionsOk(s.sessions) && SessionIds(s)
    && HistoryOk(s, hand + multiset(s.closed) + multiset(s.reserved))
  }

  ghost predicate Base(s: State) {
    BaseWith(s, multiset{})
  }

  /** What the steps keep as long as no window is deleted in the recovery session. */
  ghost predicate InvWith(s: State, hand: multiset<Closed>) {
    BaseWith(s, hand) && ItemsOk(s, hand + multiset(s.closed) + multiset(s.reserved))
  }

  ghost predicate Inv(s: State) {
    InvWith(s, multiset{})
  }

  /** An idle state: sessions whose windows are linked once, and no items. */
  ghost predicate IsStart(s: State) {
    && s.closed == [] && s.reserved == [] && s.count == 0 && s.next == 0 && s.recovery == None
    && SessionsOk(s.sessions) && (forall i :: i in s.sessions ==> i < s.nextSession)
    && s.drawn == 0 && s.pushed == [] && s.restored == [] && s.evicted == []
  }

  lemma StartIsOk(s: State)
    requires IsStart(s)
    ensures Inv(s)
  {
  }

  // ----- what the steps keep -----

  lemma TakeOut<T>(l: seq<T>, k: nat)
    requires k < |l|
    ensures multiset(l) == multiset(l[..k] + l[k + 1..]) + multiset{l[k]}
  {
    assert l == l[..k] + [l[k]] + l[k + 1..];
  }

  lemma TakeFirst<T>(l: seq<T>, m: multiset<T>)
    requires |l| > 0
    ensures multiset{} + multiset(l) + m == multiset{l[0]} + multiset(l[1..]) + m
  {
    assert l == [l[0]] + l[1..];
  }

  lemma PopKeepsInv(s: State)
    requires Base(s) && |s.closed| > 0
    ensures var t := s.(closed := s.closed[1..], count := s.count - 1);
      BaseWith(t, multiset{s.closed[0]}) && (Inv(s) ==> InvWith(t, multiset{s.closed[0]}))
  {
    hide SessionsOk, Kept, ItemsOk, HistoryOk;
    TakeFirst(s.closed, multiset(s.reserved));
    SameItems(s, s.(closed := s.closed[1..], count := s.count - 1), multiset{}, multiset{s.closed[0]});
  }

  lemma TakeKeepsInv(s: State, k: nat)
    requires Base(s) && k < |s.reserved|
    ensures BaseWith(TakeReserved(s, k), multiset{s.reserved[k]})
    ensures Inv(s) ==> InvWith(TakeReserved(s, k), multiset{s.reserved[k]})
  {
    hide SessionsOk, Kept, ItemsOk, HistoryOk;
    TakeOut(s.reserved, k);
    SameItems(s, TakeReserved(s, k), multiset{}, multiset{s.reserved[k]});
  }

  /** The items may be moved between the lists and the hand. */
  lemma SameItems(s: State, t: State, before: multiset<Closed>, after: multiset<Closed>)
    requires BaseWith(s, before) && t == s.(closed := t.closed, reserved := t.reserved, count := t.count)
    requires t.count == |t.closed| <= MAX_ITEMS
    requires before + multiset(s.closed) + multiset(s.reserved) == after + multiset(t.closed) + multiset(t.reserved)
    ensures BaseWith(t, after) && (InvWith(s, before) ==> InvWith(t, after))
  {
    hide SessionsOk;
    forall i | Kept(s, i) ensures Kept(t, i) {
    }
  }

  lemma PushKeepsInv(s: State, item: Closed)
    requires BaseWith(s, multiset{item})
    ensures Base(Push(s, item)) && (InvWith(s, multiset{item}) ==> Inv(Push(s, item)))
    ensures s.count < MAX_ITEMS ==> Push(s, item) == s.(closed := [item] + s.closed, count := s.count + 1)
  {
    hide SessionsOk, Kept, ItemsOk, HistoryOk;
    var closed := [item] + s.closed;
    if s.count + 1 > MAX_ITEMS {
      var last := |closed| - 1;
      TakeOut(closed, last);
      assert closed[..last] + closed[last + 1..] == closed[..last];
      var t := s.(closed := closed[..last]);
      SameItems(s, t, multiset{item}, multiset{closed[last]});
      DropItem(t, closed[last]);
    } else {
      SameItems(s, s.(closed := closed, count := s.count + 1), multiset{item}, multiset{});
    }
  }

  lemma DropItem(s: State, item: Closed)
    requires BaseWith(s, multiset{item})
    ensures var t := s.(evicted := s.evicted + [item]); Base(t) && (InvWith(s, multiset{item}) ==> Inv(t))
  {
    hide SessionsOk;
    var t := s.(evicted := s.evicted + [item]);
    forall i | Kept(s, i) ensures Kept(t, i) {
    }
  }

  /** A failed reopen changes nothing; in particular nothing falls off the stack. */
  lemma FailedReopenChangesNothing(s: State, fallback: Option<nat>)
    requires Base(s) && Enabled(s, Reopen(fallback)) && DoReopen(s, fallback).ret == Error
    ensures DoReopen(s, fallback).state == s
  {
    assert s.closed == [s.closed[0]] + s.closed[1..];
  }

  // ----- the windows of the sessions -----

  lemma AddedWindows(ls: seq<Link>, r: seq<Link>, p: nat, w: nat)
    requires p <= |ls| && Order(r) == Order(ls)[..p] + [w] + Order(ls)[p..]
    ensures Windows(r) == Windows(ls) + {w}
    ensures Once(ls) && w !in Windows(ls) ==> Once(r)
  {
    hide Once;
    var o := Order(ls);
    assert o == o[..p] + o[p..];
    assert forall v :: v in o <==> v in o[..p] || v in o[p..];
    if Once(ls) && w !in Windows(ls) {
      AddedOnce(ls, r, p, w);
    }
  }

  lemma AddedOnce(ls: seq<Link>, r: seq<Link>, p: nat, w: nat)
    requires p <= |ls| && Order(r) == Order(ls)[..p] + [w] + Order(ls)[p..]
    requires Once(ls) && w !in Windows(ls)
    ensures Once(r)
  {
    var o := Order(ls);
    assert forall j :: 0 <= j < |ls| ==> o[j] != w;
    assert |r| == |Order(r)|;
    forall j, k | 0 <= j < k < |r| ensures r[j].window != r[k].window {
      assert r[j].window == if j == p then w else o[if j < p then j else j - 1];
      assert r[k].window == if k == p then w else o[if k < p then k else k - 1];
    }
  }

  lemma RemovedWindows(ls: seq<Link>, p: nat)
    requires p < |ls| && Once(ls)
    ensures Windows(Removed(ls, p)) == Windows(ls) - {ls[p].window}
  {
    var r := Removed(ls, p);
    RemovedFacts(ls, p);
    forall k | 0 <= k < |ls| && k != p ensures Order(ls)[k] in Windows(r) {
      assert Order(r)[if k < p then k else k - 1] == Order(ls)[k];
    }
    forall k | 0 <= k < |r| ensures Order(r)[k] in Windows(ls) && Order(r)[k] != ls[p].window {
      assert Order(r)[k] == Order(ls)[if k < p then k else k + 1];
    }
  }

  lemma LinkedWindows(ls: seq<Link>, w: nat)
    ensures Linked(ls, Some(w)) <==> w in Windows(ls)
  {
    if w in Windows(ls) {
      var k :| 0 <= k < |ls| && Order(ls)[k] == w;
    } 
  }

  lemma {:induction false} DistinctCount<T>(l: seq<T>, x: T)
    requires Distinct(l)
    ensures multiset(l)[x] <= 1
  {
    if |l| > 0 {
      DistinctCount(l[1..], x);
      assert l == [l[0]] + l[1..];
      assert x == l[0] ==> x !in l[1..];
    }
  }

  lemma DistinctAlike<T>(l: seq<T>, m: seq<T>)
    requires Distinct(l) && multiset(l) == multiset(m)
    ensures Distinct(m)
  {
    forall j, k | 0 <= j < k < |m| ensures m[j] != m[k] {
      DistinctCount(l, m[j]);
      assert m == m[..k] + m[k..] && m[j] in m[..k];
      assert multiset(m) == multiset(m[..k]) + multiset(m[k..]);
      assert m[k] in m[k..];
    }
  }

  lemma MovedAlike<T>(o: seq<T>, w: T, place: nat, l: seq<T>, q: nat)
    requires place <= |o| && l == o[..place] + [w] + o[place..] && q < |l| && l[q] == w
    ensures multiset(l[..q] + l[q + 1..]) == multiset(o)
  {
    TakeOut(l, q);
    assert o == o[..place] + o[place..];
    var rest := multiset(l[..q] + l[q + 1..]);
    assert rest == rest + multiset{w} - multiset{w} && multiset(o) == multiset(o) + multiset{w} - multiset{w};
  }

  lemma WindowsAlike(ls: seq<Link>, r: seq<Link>)
    requires Once(ls) && multiset(Order(ls)) == multiset(Order(r))
    ensures Once(r) && Windows(r) == Windows(ls)
  {
    assert Distinct(Order(ls));
    DistinctAlike(Order(ls), Order(r));
    assert forall k :: 0 <= k < |r| ==> r[k].window == Order(r)[k];
    assert forall v :: v in Order(r) <==> v in multiset(Order(r));
    assert forall v :: v in Order(ls) <==> v in multiset(Order(ls));
  }

  /** A window that is linked a second time in its session and then unlinked where it was. */
  lemma MovedWithin(ls: seq<Link>, p: nat, r: seq<Link>, place: nat)
    requires Once(ls) && p < |ls| && Sorted(r) && place <= |ls| && |r| == |ls| + 1
    requires Order(r) == Order(ls)[..place] + [ls[p].window] + Order(ls)[place..]
    ensures var left := Removed(r, if place <= p then p + 1 else p);
      Sorted(left) && Once(left) && Windows(left) == Windows(ls)
  {
    hide Sorted, Once, Removed;
    var q := if place <= p then p + 1 else p;
    RemovedFacts(r, q);
    MovedAlike(Order(ls), ls[p].window, place, Order(r), q);
    WindowsAlike(ls, Removed(r, q));
  }

  /** A window moves from one session to another, or within one. */
  lemma MovedSessions(sessions: map<nat, seq<Link>>, from: nat, p: nat, to: nat, ls: seq<Link>, place: nat)
    requires SessionsOk(sessions) && from in sessions && to in sessions && p < |sessions[from]|
    requires Sorted(ls) && place <= |sessions[to]| && |ls| == |sessions[to]| + 1
    requires Order(ls) == Order(sessions[to])[..place] + [sessions[from][p].window] + Order(sessions[to])[place..]
    ensures var t, w := Moved(sessions, from, p, to, ls, place), sessions[from][p].window;
      && SessionsOk(t) && t.Keys == sessions.Keys
      && (from != to ==>
        && t[to] == ls && Windows(t[from]) == Windows(sessions[from]) - {w}
        && Windows(t[to]) == Windows(sessions[to]) + {w})
      && (from == to ==> Windows(t[from]) == Windows(sessions[from]))
  {
    hide Sorted, Once, Order, Removed;
    var w := sessions[from][p].window;
    if from == to {
      MovedWithin(sessions[from], p, ls, place);
      OneReplaced(sessions, from, Removed(ls, if place <= p then p + 1 else p));
    } else {
      assert w in Windows(sessions[from]) by { assert Order(sessions[from])[p] == w; }
      RemovedFacts(sessions[from], p);
      RemovedWindows(sessions[from], p);
      AddedWindows(sessions[to], ls, place, w);
      TwoReplaced(sessions, from, to, w, Removed(sessions[from], p), ls);
    }
  }

  lemma OneReplaced(sessions: map<nat, seq<Link>>, id: nat, ls: seq<Link>)
    requires SessionsOk(sessions) && id in sessions && Sorted(ls) && Once(ls) && Windows(ls) <= Windows(sessions[id])
    ensures SessionsOk(sessions[id := ls])
  {
    hide Sorted, Once;
  }

  lemma TwoReplaced(sessions: map<nat, seq<Link>>, from: nat, to: nat, w: nat, left: seq<Link>, ls: seq<Link>)
    requires SessionsOk(sessions) && from in sessions && to in sessions && from != to
    requires w in Windows(sessions[from]) && Windows(left) == Windows(sessions[from]) - {w}
    requires Windows(ls) == Windows(sessions[to]) + {w}
    requires Sorted(left) && Once(left) && Sorted(ls) && Once(ls)
    ensures SessionsOk(sessions[to := ls][from := left])
  {
    hide Sorted, Once;
  }

  lemma Apart(s: State, i: nat, j: nat)
    requires SessionsOk(s.sessions) && i in s.sessions && j in s.sessions && i != j
    ensures Windows(s.sessions[i]) !! Windows(s.sessions[j])
  {
  }

  // ----- putting back -----

  /** A restored window moves, and its old session is destroyed if it becomes empty. */
  lemma RestoredSessions(s: State, item: Closed, fallback: Option<nat>)
    requires fallback.Some? ==> fallback.value in s.sessions
    requires Restore(s, item, fallback).Some?
    ensures var s1, r := Restore(s, item, fallback).value, item.recovery;
      var dst := if item.session in s.sessions then item.session else fallback.value;
      var p := Position(s.sessions[r], item.window);
      var t := Moved(s.sessions, r, p, dst, Attached(s.sessions[dst], item).value, Place(s.sessions[dst], item));
      && s.sessions[r][p].window == item.window
      && s1 == s.(sessions := s1.sessions, recovery := s1.recovery, restored := s.restored + [item])
      && s1.sessions == (if |t[r]| == 0 then t - {r} else t)
      && s1.recovery == (if |t[r]| == 0 && s.recovery == Some(r) then None else s.recovery)
  {
    hide Attached, Place, Removed, Position;
    var r, dst := item.recovery, if item.session in s.sessions then item.session else fallback.value;
    var p := Position(s.sessions[r], item.window);
    var ls, place := Attached(s.sessions[dst], item).value, Place(s.sessions[dst], item);
    var left := Removed(if dst == r then ls else s.sessions[r], if dst == r && place <= p then p + 1 else p);
    assert s.sessions[dst := ls][r := left] - {r} == s.sessions[dst := ls] - {r};
  }

  lemma RestoreKeepsBase(s: State, item: Closed, fallback: Option<nat>)
    requires BaseWith(s, multiset{item}) && (fallback.Some? ==> Home(s, fallback.value))
    requires Restore(s, item, fallback).Some?
    ensures Base(Restore(s, item, fallback).value)
  {
    hide Attached, Place, Removed, Position, HistoryOk, SessionsOk, Moved;
    LinkedWindows(s.sessions[item.recovery], item.window);
    var p := Position(s.sessions[item.recovery], item.window);
    var dst := if item.session in s.sessions then item.session else fallback.value;
    var ls, place := Attached(s.sessions[dst], item).value, Place(s.sessions[dst], item);
    RestoredSessions(s, item, fallback);
    SessionFacts(s, dst);
    AttachedAtPlace(s.sessions[dst], item);
    MovedSessions(s.sessions, item.recovery, p, dst, ls, place);
    OneDestroyed(Moved(s.sessions, item.recovery, p, dst, ls, place), item.recovery);
    RestoredHistory(s, Restore(s, item, fallback).value, item);
  }

  lemma OneDestroyed(sessions: map<nat, seq<Link>>, id: nat)
    requires SessionsOk(sessions)
    ensures SessionsOk(sessions - {id})
  {
    hide Sorted, Once;
  }

  lemma RestoredHistory(s: State, s1: State, item: Closed)
    requires HistoryOk(s, multiset{item} + multiset(s.closed) + multiset(s.reserved))
    requires s1 == s.(sessions := s1.sessions, recovery := s1.recovery, restored := s.restored + [item])
    ensures HistoryOk(s1, multiset{} + multiset(s1.closed) + multiset(s1.reserved))
  {
  }

  /** What an item that is kept needs. */
  lemma RestoreFacts(s: State, item: Closed, fallback: Option<nat>)
    requires InvWith(s, multiset{item}) && (fallback.Some? ==> Home(s, fallback.value))
    ensures Kept(s, item)
    ensures Restore(s, item, fallback).None? <==> Attached(s.sessions[item.session], item).None?
    ensures Restore(s, item, fallback).Some? ==>
      var s1, r := Restore(s, item, fallback).value, item.recovery;
      var left := Removed(s.sessions[r], Position(s.sessions[r], item.window));
      && s1 == s.(sessions := s1.sessions, recovery := s1.recovery, restored := s.restored + [item])
      && s1.sessions == (if |left| == 0
        then s.sessions[item.session := Attached(s.sessions[item.session], item).value] - {r}
                         else s.sessions[item.session := Attached(s.sessions[item.session], item).value][r := left])
      && s1.recovery == (if |left| == 0 then None else s.recovery)
  {
    hide SessionsOk, HistoryOk, Attached, Removed, Place;
    assert item in multiset{item} + multiset(s.closed) + multiset(s.reserved);
    LinkedWindows(s.sessions[item.recovery], item.window);
    if Restore(s, item, fallback).Some? {
      var ls, r := Attached(s.sessions[item.session], item).value, item.recovery;
      var left := Removed(s.sessions[r], Position(s.sessions[r], item.window));
      assert s.sessions[item.session := ls][r := left] - {r} == s.sessions[item.session := ls] - {r};
    }
  }

  /** The other items are not affected when a window leaves the recovery session, and if there are any
      the session stays. */
  lemma OtherItemsStay(s: State, item: Closed, s1: State, ls: seq<Link>, left: seq<Link>)
    requires InvWith(s, multiset{item}) && Kept(s, item)
    requires Windows(left) == Windows(s.sessions[item.recovery]) - {item.window}
    requires s1.sessions == if |left| == 0 then s.sessions[item.session := ls] - {item.recovery}
                            else s.sessions[item.session := ls][item.recovery := left]
    requires s1.recovery == if |left| == 0 then None else s.recovery
    ensures ItemsOk(s1, multiset(s.closed) + multiset(s.reserved))
  {
    hide SessionsOk, HistoryOk;
    var items := multiset(s.closed) + multiset(s.reserved);
    assert multiset{item} + items == multiset{item} + multiset(s.closed) + multiset(s.reserved);
    forall i | i in items ensures Kept(s1, i) && items[i] == 1 {
      assert i in multiset{item} + items && (multiset{item} + items)[i] == 1;
      assert i.window != item.window;
      assert i.window in Windows(left);
    }
  }

  lemma RestoreKeepsInv(s: State, item: Closed, fallback: Option<nat>)
    requires InvWith(s, multiset{item}) && (fallback.Some? ==> Home(s, fallback.value))
    requires Restore(s, item, fallback).Some?
    ensures Inv(Restore(s, item, fallback).value)
  {
    hide Attached, Removed, Position, SessionsOk, HistoryOk, ItemsOk, Restore;
    var s1, r := Restore(s, item, fallback).value, item.recovery;
    RestoreFacts(s, item, fallback);
    var p := Position(s.sessions[r], item.window);
    RestoreKeepsBase(s, item, fallback);
    LinkedWindows(s.sessions[r], item.window);
    SessionFacts(s, r);
    RemovedWindows(s.sessions[r], p);
    OtherItemsStay(s, item, s1, Attached(s.sessions[item.session], item).value, Removed(s.sessions[r], p));
    assert multiset{} + multiset(s.closed) + multiset(s.reserved) == multiset(s.closed) + multiset(s.reserved);
  }

  lemma SessionFacts(s: State, id: nat)
    requires SessionsOk(s.sessions) && id in s.sessions
    ensures Sorted(s.sessions[id]) && Once(s.sessions[id])
  {
  }

  // ----- deleting -----

  lemma DrawnKeepsInv(s: State)
    requires Base(s)
    ensures var t := Drawn(s);
      && Base(t) && (Inv(s) ==> Inv(t)) && t.recovery.Some?
      && t.next == (s.next + 1) % UINT_RANGE && t.drawn == s.drawn + 1
      && t == s.(
        next := t.next, drawn := t.drawn, sessions := t.sessions, recovery := t.recovery, nextSession := t.nextSession)
      && (forall i :: i in s.sessions ==> i in t.sessions && t.sessions[i] == s.sessions[i])
      && (forall i :: Home(s, i) ==> Home(t, i)) && (forall i :: i in s.sessions && Home(t, i) ==> Home(s, i))
      && (forall k :: 0 <= k < |t.pushed| && t.drawn < UINT_RANGE ==> t.pushed[k].sequence < t.drawn)
      && t.next == t.drawn % UINT_RANGE
  {
    hide Sorted, Once;
    var n := s.(next := (s.next + 1) % UINT_RANGE, drawn := s.drawn + 1);
    forall i | Kept(s, i) ensures Kept(n, i) {
    }
    assert Windows([]) == {};
    assert Sorted([]) && Once([]) by { EmptyIsOk(); }
    assert s.recovery.None? ==> forall i :: !Kept(s, i);
  }

  lemma EmptyIsOk()
    ensures Sorted([]) && Once([])
  {
  }

  /** The state after the window of a new item was moved into the recovery session. */
  ghost function WithItem(s: State, id: nat, p: nat, rls: seq<Link>, item: Closed): State
    requires s.recovery.Some? && s.recovery.value in s.sessions && id in s.sessions && p < |s.sessions[id]|
    requires |rls| == |s.sessions[s.recovery.value]| + 1
  {
    var r := s.recovery.value;
    var place := Below(s.sessions[r], Free(s.sessions[r], 0));
    s.(sessions := Moved(s.sessions, id, p, r, rls, place), pushed := s.pushed + [item])
  }

  lemma WithItemKeepsBase(s: State, id: nat, p: nat, rls: seq<Link>, item: Closed)
    requires Base(s) && s.recovery.Some? && id in s.sessions && p < |s.sessions[id]|
    requires AddedFirst(s.sessions[s.recovery.value], s.sessions[id][p].window) == Some(rls)
    requires s.drawn > 0 && item == ItemFor(s.drawn % UINT_RANGE, id, s.sessions[id], p, s.recovery.value)
    requires forall k :: 0 <= k < |s.pushed| && s.drawn < UINT_RANGE ==> s.pushed[k].sequence < s.drawn
    ensures var t, r := WithItem(s, id, p, rls, item), s.recovery.value;
      && BaseWith(t, multiset{item}) && t.sessions.Keys == s.sessions.Keys
      && (id != r ==> Windows(t.sessions[r]) == Windows(s.sessions[r]) + {item.window})
      && (id != r ==> item.window !in Windows(s.sessions[r]))
      && (id != r ==> t.sessions == s.sessions[r := rls][id := Removed(s.sessions[id], p)])
  {
    hide Sorted, Once, AddedFirst, Removed, HistoryOk, Free, Below, Order;
    var r, w, t := s.recovery.value, item.window, WithItem(s, id, p, rls, item);
    SessionFacts(s, r);
    FirstInOrder(s.sessions[r], w);
    MovedSessions(s.sessions, id, p, r, rls, Below(s.sessions[r], Free(s.sessions[r], 0)));
    if id != r {
      Apart(s, id, r);
      assert w in Windows(s.sessions[id]) by { assert Order(s.sessions[id])[p] == w; }
    }
    NewItemHistory(s, t, item, multiset{} + multiset(s.closed) + multiset(s.reserved));
    assert multiset{item} + (multiset{} + multiset(s.closed) + multiset(s.reserved))
      == multiset{item} + multiset(s.closed) + multiset(s.reserved);
  }

  lemma NewItemHistory(s: State, t: State, item: Closed, items: multiset<Closed>)
    requires HistoryOk(s, items) && s.drawn > 0 && item.sequence == s.drawn % UINT_RANGE
    requires t == s.(sessions := t.sessions, pushed := s.pushed + [item])
    requires forall k :: 0 <= k < |s.pushed| && s.drawn < UINT_RANGE ==> s.pushed[k].sequence < s.drawn
    ensures HistoryOk(t, multiset{item} + items)
  {
  }

  /** A window of a home session is kept. */
  lemma NewItemKept(s: State, t: State, item: Closed, items: multiset<Closed>)
    requires ItemsOk(s, items) && Home(s, item.session) && s.recovery == Some(item.recovery)
    requires item.recovery in s.sessions
    requires t == s.(sessions := t.sessions, pushed := t.pushed) && s.sessions.Keys == t.sessions.Keys
    requires Windows(t.sessions[item.recovery]) == Windows(s.sessions[item.recovery]) + {item.window}
    requires item.window !in Windows(s.sessions[item.recovery])
    ensures ItemsOk(t, multiset{item} + items)
  {
    forall i | i in items ensures Kept(t, i) && i.window != item.window {
      assert Kept(s, i);
    }
  }

  lemma WithItemKeepsInv(s: State, id: nat, p: nat, rls: seq<Link>, item: Closed)
    requires Inv(s) && s.recovery.Some? && Home(s, id) && p < |s.sessions[id]|
    requires AddedFirst(s.sessions[s.recovery.value], s.sessions[id][p].window) == Some(rls)
    requires s.drawn > 0 && item == ItemFor(s.drawn % UINT_RANGE, id, s.sessions[id], p, s.recovery.value)
    requires forall k :: 0 <= k < |s.pushed| && s.drawn < UINT_RANGE ==> s.pushed[k].sequence < s.drawn
    ensures InvWith(WithItem(s, id, p, rls, item), multiset{item})
  {
    hide SessionsOk, ItemsOk, HistoryOk, AddedFirst, Moved;
    var t, items := WithItem(s, id, p, rls, item), multiset(s.closed) + multiset(s.reserved);
    assert multiset{} + multiset(s.closed) + multiset(s.reserved) == items;
    assert multiset{item} + multiset(s.closed) + multiset(s.reserved) == multiset{item} + items;
    WithItemKeepsBase(s, id, p, rls, item);
    NewItemKept(s, t, item, items);
  }

  /** Deleting a window in the recovery session harms an item: the one made for it, or the one that has
      kept it. */
  ghost predicate Breaks(s: State, st: Step)
    requires Enabled(s, st)
  {
    && st.Delete? && s.recovery == Some(st.session)
    && var ls := s.sessions[st.session];
      |ls| > 1 && if st.untouched then IsHeld(s, ls[st.position].window) else Free(ls, 0) <= INT_MAX
  }

  ghost predicate InLists(s: State, item: Closed) {
    item in s.closed || item in s.reserved
  }

  ghost predicate IsHeld(s: State, w: nat) {
    exists i :: InLists(s, i) && i.window == w
  }

  lemma DeleteKeepsBase(s: State, id: nat, p: nat, untouched: bool)
    requires Base(s) && Enabled(s, Delete(id, p, untouched))
    ensures Base(DoDelete(s, id, p, untouched).state)
  {
    hide SessionsOk, HistoryOk, AddedFirst, Removed, Push, WithRecovery, Moved;
    var ls := s.sessions[id];
    if |ls| == 1 {
    } else if untouched {
      KillKeepsInv(s, id, p);
    } else {
      var s1 := Drawn(s);
      DrawnKeepsInv(s);
      var r := s1.recovery.value;
      if AddedFirst(s1.sessions[r], ls[p].window).Some? {
        var rls, item := AddedFirst(s1.sessions[r], ls[p].window).value, ItemFor(s1.next, id, ls, p, r);
        WithItemKeepsBase(s1, id, p, rls, item);
        PushKeepsInv(WithItem(s1, id, p, rls, item), item);
      }
    }
  }

  lemma DeleteKeepsInv(s: State, id: nat, p: nat, untouched: bool)
    requires Inv(s) && Enabled(s, Delete(id, p, untouched)) && !Breaks(s, Delete(id, p, untouched))
    ensures Inv(DoDelete(s, id, p, untouched).state)
  {
    hide SessionsOk, HistoryOk, ItemsOk, AddedFirst, Free, Removed, Push, WithRecovery, Moved;
    var ls := s.sessions[id];
    if |ls| == 1 {
    } else if untouched {
      KillKeepsInv(s, id, p);
    } else {
      var s1 := Drawn(s);
      DrawnKeepsInv(s);
      var r := s1.recovery.value;
      if AddedFirst(s1.sessions[r], ls[p].window).Some? {
        var rls, item := AddedFirst(s1.sessions[r], ls[p].window).value, ItemFor(s1.next, id, ls, p, r);
        assert Home(s, id) by { RoomToAdd(ls, ls[p].window); }
        WithItemKeepsInv(s1, id, p, rls, item);
        PushKeepsInv(WithItem(s1, id, p, rls, item), item);
      }
    }
  }

  lemma RoomToAdd(ls: seq<Link>, w: nat)
    ensures AddedFirst(ls, w).Some? <==> Free(ls, 0) <= INT_MAX
  {
  }

  lemma KillKeepsInv(s: State, id: nat, p: nat)
    requires Base(s) && id in s.sessions && p < |s.sessions[id]|
    ensures var t := s.(sessions := s.sessions[id := Removed(s.sessions[id], p)]);
      Base(t) && (Inv(s) && (s.recovery == Some(id) ==> !IsHeld(s, s.sessions[id][p].window)) ==> Inv(t))
  {
    hide Sorted, Once, Removed, HistoryOk;
    RemovedFacts(s.sessions[id], p);
    RemovedWindows(s.sessions[id], p);
    var t := s.(sessions := s.sessions[id := Removed(s.sessions[id], p)]);
    OneReplaced(s.sessions, id, Removed(s.sessions[id], p));
    forall i | Kept(s, i) && (i.window != s.sessions[id][p].window || s.recovery != Some(id)) ensures Kept(t, i) {
    }
    forall i | i in multiset{} + multiset(s.closed) + multiset(s.reserved) ensures InLists(s, i) {
    }
    SameHistory(s, t, multiset{} + multiset(s.closed) + multiset(s.reserved));
  }

  lemma SameHistory(s: State, t: State, items: multiset<Closed>)
    requires HistoryOk(s, items) && t == s.(sessions := t.sessions)
    ensures HistoryOk(t, items)
  {
  }

  // ----- the other steps -----

  lemma ReopenKeepsInv(s: State, fallback: Option<nat>)
    requires Base(s) && Enabled(s, Reopen(fallback))
    ensures var t := DoReopen(s, fallback).state; Base(t) && (Inv(s) ==> Inv(t))
  {
    hide BaseWith, InvWith, Restore, Push;
    if |s.closed| > 0 {
      var item, popped := s.closed[0], s.(closed := s.closed[1..], count := s.count - 1);
      PopKeepsInv(s);
      if Restore(popped, item, fallback).Some? {
        RestoreKeepsBase(popped, item, fallback);
        if Inv(s) { RestoreKeepsInv(popped, item, fallback); }
      } else {
        PushKeepsInv(popped, item);
      }
    }
  }

  lemma ReserveKeepsInv(s: State)
    requires Base(s)
    ensures Base(DoReserve(s)) && (Inv(s) ==> Inv(DoReserve(s)))
  {
    hide SessionsOk, HistoryOk, ItemsOk;
    if |s.closed| > 0 {
      MoveToReserved(s.closed, s.reserved);
      SameItems(s, DoReserve(s), multiset{}, multiset{});
    }
  }

  lemma MoveToReserved<T>(closed: seq<T>, reserved: seq<T>)
    requires |closed| > 0
    ensures multiset{} + multiset(closed) + multiset(reserved)
      == multiset{} + multiset(closed[1..]) + multiset(reserved + [closed[0]])
  {
    assert closed == [closed[0]] + closed[1..];
  }

  lemma ClaimKeepsInv(s: State, q: int, fallback: Option<nat>)
    requires Base(s) && Enabled(s, Claim(q, fallback))
    ensures var t, u := DoClaim(s, q, fallback).state, DoRelease(s, q).state;
      Base(t) && Base(u) && (Inv(s) ==> Inv(t) && Inv(u))
  {
    hide BaseWith, InvWith, Restore, Push;
    if IsSequence(q) && Find(s.reserved, q) < |s.reserved| {
      var k := Find(s.reserved, q);
      var item, taken := s.reserved[k], TakeReserved(s, k);
      TakeKeepsInv(s, k);
      PushKeepsInv(taken, item);
      if Restore(taken, item, fallback).Some? {
        RestoreKeepsBase(taken, item, fallback);
        if Inv(s) { RestoreKeepsInv(taken, item, fallback); }
      }
    }
  }

  lemma ClearKeepsInv(s: State)
    requires Base(s)
    ensures Inv(DoClear(s)) && Base(DoClear(s))
  {
    hide Sorted, Once;
  }

  lemma StepKeepsBase(s: State, st: Step)
    requires Base(s) && Enabled(s, st)
    ensures Base(Apply(s, st))
  {
    hide BaseWith, InvWith;
    match st
    case Delete(id, p, untouched) => DeleteKeepsBase(s, id, p, untouched);
    case Reopen(fallback) => ReopenKeepsInv(s, fallback);
    case Reserve => ReserveKeepsInv(s);
    case Claim(q, fallback) => ClaimKeepsInv(s, q, fallback);
    case Release(q) => ClaimKeepsInv(s, q, None);
    case Clear => ClearKeepsInv(s);
  }

  lemma StepKeepsInv(s: State, st: Step)
    requires Inv(s) && Enabled(s, st) && !Breaks(s, st)
    ensures Inv(Apply(s, st))
  {
    hide BaseWith, ItemsOk, Breaks, DoDelete, DoReopen, DoReserve, DoClaim, DoRelease, DoClear;
    match st
    case Delete(id, p, untouched) => DeleteKeepsInv(s, id, p, untouched);
    case Reopen(fallback) => ReopenKeepsInv(s, fallback);
    case Reserve => ReserveKeepsInv(s);
    case Claim(q, fallback) => ClaimKeepsInv(s, q, fallback);
    case Release(q) => ClaimKeepsInv(s, q, None);
    case Clear => ClearKeepsInv(s);
  }

  ghost predicate IsRun(s: State, steps: seq<Step>)
    decreases |steps|
  {
    |steps| > 0 ==> Enabled(s, steps[0]) && IsRun(Apply(s, steps[0]), steps[1..])
  }

  ghost function RunOf(s: State, steps: seq<Step>): State
    requires IsRun(s, steps)
    decreases |steps|
  {
    if |steps| == 0 then s else RunOf(Apply(s, steps[0]), steps[1..])
  }

  lemma {:induction false} RunKeepsBase(s: State, steps: seq<Step>)
    requires Base(s) && IsRun(s, steps)
    ensures Base(RunOf(s, steps))
    decreases |steps|
  {
    hide Base, Apply, Enabled;
    if |steps| > 0 {
      StepKeepsBase(s, steps[0]);
      RunKeepsBase(Apply(s, steps[0]), steps[1..]);
    }
  }

  // ----- what holds in every run -----

  /** The window of an item is linked in the one recovery session there is, whose id the item recorded,
      and in no other session; its home is another session that is there. */
  ghost predicate KeptAlone(s: State, item: Closed) {
    && s.recovery == Some(item.recovery) && item.recovery in s.sessions
    && item.window in Windows(s.sessions[item.recovery])
    && item.session in s.sessions && item.session != item.recovery
    && (forall i :: i in s.sessions && i != item.recovery ==> item.window !in Windows(s.sessions[i]))
  }

  ghost predicate AllKept(s: State) {
    forall i :: InLists(s, i) ==> KeptAlone(s, i)
  }

  /** All closed and reserved items are kept in every state of a run. */
  ghost predicate AlwaysKept(s: State, steps: seq<Step>)
    requires IsRun(s, steps)
    decreases |steps|
  {
    AllKept(s) && (|steps| > 0 ==> AlwaysKept(Apply(s, steps[0]), steps[1..]))
  }

  ghost predicate NeverBreaks(s: State, steps: seq<Step>)
    requires IsRun(s, steps)
    decreases |steps|
  {
    |steps| > 0 ==> !Breaks(s, steps[0]) && NeverBreaks(Apply(s, steps[0]), steps[1..])
  }

  lemma InvKeepsAll(s: State)
    requires Inv(s)
    ensures AllKept(s)
  {
    hide Sorted, Once, HistoryOk;
    forall i | InLists(s, i) ensures KeptAlone(s, i) {
      assert i in multiset{} + multiset(s.closed) + multiset(s.reserved);
      forall j | j in s.sessions && j != i.recovery ensures i.window !in Windows(s.sessions[j]) {
        Apart(s, j, i.recovery);
      }
    }
  }

  lemma BrokenItem(s: State, st: Step)
    requires Inv(s) && Enabled(s, st) && Breaks(s, st)
    ensures !AllKept(Apply(s, st))
  {
    hide SessionsOk, HistoryOk, ItemsOk, Removed, AddedFirst, Free, Moved;
    var id, p, t := st.session, st.position, Apply(s, st);
    var ls := s.sessions[id];
    if st.untouched {
      var i :| InLists(s, i) && i.window == ls[p].window;
      SessionFacts(s, id);
      RemovedWindows(ls, p);
      assert InLists(t, i) && !KeptAlone(t, i);
    } else {
      RoomToAdd(ls, ls[p].window);
      assert InLists(t, t.closed[0]) && t.closed[0].session == id;
      assert !KeptAlone(t, t.closed[0]);
    }
  }

  lemma {:induction false} KeptUntilBroken(s: State, steps: seq<Step>)
    requires Inv(s) && IsRun(s, steps)
    ensures AlwaysKept(s, steps) <==> NeverBreaks(s, steps)
    ensures NeverBreaks(s, steps) ==> Inv(RunOf(s, steps))
    decreases |steps|
  {
    hide Inv, Apply, Enabled, AllKept, Breaks;
    InvKeepsAll(s);
    if |steps| > 0 {
      if Breaks(s, steps[0]) {
        BrokenItem(s, steps[0]);
      } else {
        StepKeepsInv(s, steps[0]);
        KeptUntilBroken(Apply(s, steps[0]), steps[1..]);
      }
    }
  }

  /** The closed and reserved items are kept in every state of a run exactly if the run never deletes a
      window in the recovery session: one that is moved there once more, or one of an item that is killed. */
  lemma ClosedWindowsAreKept(start: State, steps: seq<Step>)
    requires IsStart(start) && IsRun(start, steps)
    ensures AlwaysKept(start, steps) <==> NeverBreaks(start, steps)
    ensures NeverBreaks(start, steps) ==> AllKept(RunOf(start, steps))
  {
    hide IsRun, RunOf, AlwaysKept, NeverBreaks, Inv;
    StartIsOk(start);
    KeptUntilBroken(start, steps);
    if NeverBreaks(start, steps) {
      InvKeepsAll(RunOf(start, steps));
    }
  }

  /** In every state of every run, every window is linked once, in one session, the count is the length
      of the stack and at most 32, and everything pushed since the last clear is as often as that in
      exactly one of the four places. Until the counter wraps, nothing is pushed twice: so everything is
      in one place, nothing was restored twice, and the sequence numbers in the two lists are distinct
      and no larger than the counter. */
  lemma ItemsAreConserved(start: State, steps: seq<Step>)
    requires IsStart(start) && IsRun(start, steps)
    ensures var s := RunOf(start, steps);
      && SessionsOk(s.sessions) && s.count == |s.closed| <= 32
      && multiset(s.pushed) == multiset(s.closed) + multiset(s.reserved) + multiset(s.restored) + multiset(s.evicted)
      && (s.drawn < UINT_RANGE ==>
        && s.next == s.drawn
        && (forall i :: i in s.pushed ==> multiset(s.pushed)[i] == 1)
        && (forall i, j :: InLists(s, i) && InLists(s, j) && i.sequence == j.sequence ==> i == j)
        && (forall i :: InLists(s, i) ==> 1 <= i.sequence <= s.next))
  {
    hide SessionsOk, ItemsOk, HistoryOk, IsRun, RunOf, IsStart;
    StartIsOk(start);
    RunKeepsBase(start, steps);
    Conserved(RunOf(start, steps));
  }

  lemma Conserved(s: State)
    requires HistoryOk(s, multiset{} + multiset(s.closed) + multiset(s.reserved))
    ensures multiset(s.pushed) == multiset(s.closed) + multiset(s.reserved) + multiset(s.restored) + multiset(s.evicted)
    ensures s.drawn < UINT_RANGE ==>
      && s.next == s.drawn
      && (forall i :: i in s.pushed ==> multiset(s.pushed)[i] == 1)
      && (forall i, j :: InLists(s, i) && InLists(s, j) && i.sequence == j.sequence ==> i == j)
      && (forall i :: InLists(s, i) ==> 1 <= i.sequence <= s.next)
  {
    assert multiset{} + multiset(s.closed) + multiset(s.reserved) == multiset(s.closed) + multiset(s.reserved);
    if s.drawn < UINT_RANGE {
      forall i | InLists(s, i) ensures i in s.pushed {
        assert i in multiset(s.closed) + multiset(s.reserved);
        assert i in multiset(s.pushed);
      }
      PushedOnce(s.pushed);
    }
  }

  lemma {:induction false} PushedOnce(l: seq<Closed>)
    requires forall j, k :: 0 <= j < k < |l| ==> l[j].sequence < l[k].sequence
    ensures forall i :: i in l ==> multiset(l)[i] == 1
    ensures forall i, j :: i in l && j in l && i.sequence == j.sequence ==> i == j
  {
    if |l| > 0 {
      PushedOnce(l[1..]);
      assert l == [l[0]] + l[1..];
      assert l[0] !in l[1..];
    }
  }

  /** When the counter has wrapped to a number that is still in use, the next item gets the same one. */
  lemma WrappedSequenceIsReused(s: State, id: nat, p: nat, oldItem: Closed)
    requires Inv(s) && Enabled(s, Delete(id, p, false)) && DoDelete(s, id, p, false).ret == Normal
    requires oldItem in s.reserved && oldItem.sequence == (s.next + 1) % UINT_RANGE
    ensures var t := DoDelete(s, id, p, false).state;
      |t.closed| > 0 && t.closed[0].sequence == oldItem.sequence && t.closed[0] != oldItem && oldItem in t.reserved
  {
    hide Removed, AddedFirst, Sorted, Once, HistoryOk, Moved;
    var item := DoDelete(s, id, p, false).state.closed[0];
    assert item.window in Windows(s.sessions[id]) by { assert Order(s.sessions[id])[p] == item.window; }
    assert oldItem in multiset{} + multiset(s.closed) + multiset(s.reserved);
    assert Kept(s, oldItem);
    if id != oldItem.recovery {
      Apart(s, id, oldItem.recovery);
    }
  }
}
