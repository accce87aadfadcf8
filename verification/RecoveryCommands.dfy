/** What each of the recovery commands does to the lists, the counter and the order of windows. */
module RecoveryCommands {
  import opened Common
  import opened Winlinks
  import opened RecoveryState
  import opened RecoveryOrder

  /** The windows of a session without the one at a position. */
  function OrderWithout(ls: seq<Link>, p: nat): seq<nat>
    requires p < |ls|
  {
    Order(ls)[..p] + Order(ls)[p + 1..]
  }

  lemma RemovedOrder(ls: seq<Link>, p: nat)
    requires p < |ls|
    ensures Order(Removed(ls, p)) == OrderWithout(ls, p)
  {
    RemovedFacts(ls, p);
  }

  /** The stack after an item was put on it: only the latest 32 are kept. */
  lemma PushMeans(s: State, item: Closed)
    requires s.count == |s.closed| <= 32
    ensures var t := Push(s, item);
      && t.count == |t.closed| <= 32
      && t.closed == ([item] + s.closed)[..if |s.closed| < 32 then |s.closed| + 1 else 32]
      && t.evicted == s.evicted + (if |s.closed| < 32 then [] else [s.closed[31]])
      && t == s.(closed := t.closed, count := t.count, evicted := t.evicted)
  {
    var all := [item] + s.closed;
    assert all[..|all|] == all;
    assert |s.closed| == 32 ==> all[32] == s.closed[31];
  }

  /** The last window of a session is not deleted. An untouched one only leaves its session. */
  lemma DeleteOfOneOrUntouched(s: State, id: nat, p: nat, untouched: bool)
    requires SessionIds(s) && id in s.sessions && p < |s.sessions[id]|
    ensures |s.sessions[id]| == 1 ==> DoDelete(s, id, p, untouched) == Outcome(s, Error)
    ensures |s.sessions[id]| > 1 && untouched ==>
      var o := DoDelete(s, id, p, untouched);
      && o.ret == Normal && o.state == s.(sessions := o.state.sessions)
      && o.state.sessions.Keys == s.sessions.Keys
      && Order(o.state.sessions[id]) == OrderWithout(s.sessions[id], p)
      && forall i :: i in s.sessions && i != id ==> o.state.sessions[i] == s.sessions[i]
  {
    RemovedOrder(s.sessions[id], p);
  }

  /** Any other window leaves its session and is linked in the recovery session, which is made if there is
      none, and its item with its place and its neighbours is the latest closed one. */
  lemma DeleteMeans(s: State, id: nat, p: nat)
    requires Base(s) && id in s.sessions && p < |s.sessions[id]| && |s.sessions[id]| > 1 && s.recovery != Some(id)
    ensures var ls, out := s.sessions[id], DoDelete(s, id, p, false);
      var o, t := Order(ls), out.state;
      && (out.ret == Error <==>
        s.recovery.Some? && forall i :: 0 <= i <= INT_MAX ==> Used(s.sessions[s.recovery.value], i))
      && t.next == (s.next + 1) % UINT_RANGE && t.reserved == s.reserved
      && (out.ret == Error ==> t.closed == s.closed && t.sessions == s.sessions)
      && (out.ret == Normal ==>
        && t.recovery == Some(if s.recovery.Some? then s.recovery.value else s.nextSession)
        && var item := Closed(t.next, id, o[p], ls[p].idx, p, if p > 0 then Some(o[p - 1]) else None,
             if p + 1 < |o| then Some(o[p + 1]) else None, t.recovery.value);
        && t.closed == ([item] + s.closed)[..if |s.closed| < 32 then |s.closed| + 1 else 32]
        && t.sessions.Keys == s.sessions.Keys + {t.recovery.value}
        && Order(t.sessions[id]) == OrderWithout(ls, p) && o[p] in Order(t.sessions[t.recovery.value])
        && forall i :: i in s.sessions && i != id && i != t.recovery.value ==> t.sessions[i] == s.sessions[i])
  {
    hide AddedFirst, Removed, Order, Used, Push, HistoryOk, Free, Below;
    var ls, s1 := s.sessions[id], Drawn(s);
    var r := s1.recovery.value;
    var item := ItemFor(s1.next, id, ls, p, r);
    RecoverySessionIsSorted(s);
    RemovedOrder(ls, p);
    AddedFirstIfFree(s1.sessions[r], item.window);
    if s.recovery.None? {
      NothingUsed();
    }
    match AddedFirst(s1.sessions[r], item.window)
    case None =>
    case Some(rls) =>
      AddedFirstHas(s1.sessions[r], item.window);
      var moved := Moved(s1.sessions, id, p, r, rls, Below(s1.sessions[r], Free(s1.sessions[r], 0)));
      PushMeans(s1.(sessions := moved, pushed := s1.pushed + [item]), item);
  }

  lemma RecoverySessionIsSorted(s: State)
    requires Base(s)
    ensures s.count == |s.closed| <= 32 && SessionIds(s)
    ensures var t := Drawn(s); t.recovery.value in t.sessions && Sorted(t.sessions[t.recovery.value])
  {
    hide HistoryOk;
  }

  lemma NothingUsed()
    ensures !Used([], 0)
  {
  }

  lemma AddedFirstHas(ls: seq<Link>, w: nat)
    requires Sorted(ls) && AddedFirst(ls, w).Some?
    ensures w in Order(AddedFirst(ls, w).value)
  {
    hide AddedFirst, Below, Free, Order;
    FirstInOrder(ls, w);
    var p := Below(ls, Free(ls, 0));
    assert (Order(ls)[..p] + [w] + Order(ls)[p..])[p] == w;
  }

  /** The latest closed item goes behind all reserved ones. */
  lemma ReserveMeans(s: State)
    ensures |s.closed| == 0 ==> DoReserve(s) == s
    ensures |s.closed| > 0 ==>
      DoReserve(s) == s.(closed := s.closed[1..], count := s.count - 1, reserved := s.reserved + [s.closed[0]])
  {
  }

  /** A number that is no sequence number is an error, and one that is not in use changes nothing. */
  lemma NotReserved(s: State, q: int, fallback: Option<nat>)
    requires fallback.Some? ==> fallback.value in s.sessions
    ensures q < 1 || q > 0xffff_ffff ==>
      DoClaim(s, q, fallback) == DoRelease(s, q) == Outcome(s, Error)
    ensures 1 <= q <= 0xffff_ffff && (forall i :: i in s.reserved ==> i.sequence != q) ==>
      DoClaim(s, q, fallback) == DoRelease(s, q) == Outcome(s, Normal)
  {
    hide Restore, Push;
  }

  /** The first reserved item with a number is no longer reserved: released it is the latest closed one, and
      claimed it is restored, or if that fails, the latest closed one. */
  lemma ReservedMeans(s: State, k: nat, fallback: Option<nat>)
    requires s.count == |s.closed| <= 32 && (fallback.Some? ==> fallback.value in s.sessions)
    requires k < |s.reserved| && 1 <= s.reserved[k].sequence <= 0xffff_ffff
    requires forall j :: 0 <= j < k ==> s.reserved[j].sequence != s.reserved[k].sequence
    ensures var item, left := s.reserved[k], s.reserved[..k] + s.reserved[k + 1..];
      var top := ([item] + s.closed)[..if |s.closed| < 32 then |s.closed| + 1 else 32];
      var c, r := DoClaim(s, item.sequence, fallback), DoRelease(s, item.sequence);
      && r.ret == Normal && r.state.closed == top && r.state.reserved == left && r.state.sessions == s.sessions
      && c.state.reserved == left
      && (c.ret == Error <==> Restore(TakeReserved(s, k), item, fallback).None?)
      && (c.ret == Normal ==> c.state.closed == s.closed && c.state.restored == s.restored + [item])
      && (c.ret == Error ==> c.state.closed == top && c.state.restored == s.restored && c.state.sessions == s.sessions)
  {
    hide Restore, Push, Find;
    FindFirst(s.reserved, s.reserved[k].sequence, k);
    PushMeans(TakeReserved(s, k), s.reserved[k]);
    RestoreKeepsLists(TakeReserved(s, k), s.reserved[k], fallback);
  }

  lemma {:induction false} FindFirst(l: seq<Closed>, q: nat, k: nat)
    requires k < |l| && l[k].sequence == q && forall j :: 0 <= j < k ==> l[j].sequence != q
    ensures Find(l, q) == k
  {
    if k > 0 {
      FindFirst(l[1..], q, k - 1);
    }
  }

  lemma RestoreKeepsLists(s: State, item: Closed, fallback: Option<nat>)
    requires fallback.Some? ==> fallback.value in s.sessions
    ensures var t := Restore(s, item, fallback);
      t.Some? ==>
        && t.value.closed == s.closed && t.value.reserved == s.reserved && t.value.count == s.count
        && t.value.restored == s.restored + [item]
  {
    hide Attached, Removed, Place;
  }

  /** The latest closed item is restored, in its own session if that is there and else in the fallback, or if
      that fails nothing changes. */
  lemma ReopenMeans(s: State, fallback: Option<nat>)
    requires Base(s) && Enabled(s, Reopen(fallback))
    ensures |s.closed| == 0 ==> DoReopen(s, fallback) == Outcome(s, Normal)
    ensures |s.closed| > 0 ==>
      var out, item := DoReopen(s, fallback), s.closed[0];
      && (out.ret == Error <==> Restore(s.(closed := s.closed[1..], count := s.count - 1), item, fallback).None?)
      && (out.ret == Error ==> out.state == s)
      && (out.ret == Normal ==>
        && out.state.closed == s.closed[1..] && out.state.reserved == s.reserved
        && out.state.restored == s.restored + [item])
  {
    hide Restore, HistoryOk;
    if |s.closed| > 0 {
      if DoReopen(s, fallback).ret == Error {
        FailedReopenChangesNothing(s, fallback);
      }
      RestoreKeepsLists(s.(closed := s.closed[1..], count := s.count - 1), s.closed[0], fallback);
    }
  }

  /** Where the window of an item goes: into the session it came from, in its place there, and out of the
      recovery session that it is kept in, which is destroyed with its last window. */
  lemma RestoreMeans(s: State, item: Closed, fallback: Option<nat>)
    requires fallback.Some? ==> fallback.value in s.sessions
    requires item.recovery in s.sessions && item.recovery != item.session
    requires item.session in s.sessions && item.window in Order(s.sessions[item.recovery])
    ensures var t, home := Restore(s, item, fallback), Attached(s.sessions[item.session], item);
      && (t.Some? <==> home.Some?)
      && (t.Some? ==>
        && t.value.sessions.Keys
          == s.sessions.Keys - (if |s.sessions[item.recovery]| == 1 then {item.recovery} else {})
        && t.value.sessions[item.session] == home.value
        && (|s.sessions[item.recovery]| > 1 ==>
          exists p :: 0 <= p < |s.sessions[item.recovery]| && s.sessions[item.recovery][p].window == item.window
            && Order(t.value.sessions[item.recovery]) == OrderWithout(s.sessions[item.recovery], p))
        && forall i :: i in s.sessions && i != item.session && i != item.recovery ==>
          t.value.sessions[i] == s.sessions[i])
  {
    hide Attached, Place, Removed, Order, Position, Linked;
    var kept := s.sessions[item.recovery];
    IsLinked(kept, Some(item.window));
    var p := Position(kept, item.window);
    RemovedOrder(kept, p);
    RemovedLength(kept, p);
  }

  lemma RemovedLength(ls: seq<Link>, p: nat)
    requires p < |ls|
    ensures |Removed(ls, p)| == |ls| - 1
  {
  }

  /** Everything is forgotten, and the recovery session is destroyed with all windows in it. */
  lemma ClearMeans(s: State)
    ensures var t := DoClear(s);
      && t.closed == t.reserved == [] && t.count == t.next == 0 && t.recovery == None
      && t.sessions == (if s.recovery.Some? then s.sessions - {s.recovery.value} else s.sessions)
  {
  }
}
