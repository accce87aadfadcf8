/** The commands that delete, reopen, reserve, claim and release windows, on the lists, counters and
    sessions that they change. Every command takes the step of RecoveryState of its name. */
module Recovery {
  import opened Common
  import opened Winlinks
  import opened RecoveryState
  import opened RecoveryOrder

  class NewmuxRecovery {
    var closed: seq<Closed>
    var reserved: seq<Closed>
    var count: int
    var next: nat
    var sessions: map<nat, Session>
    var recovery: Option<nat>
    var nextSession: nat
    ghost var drawn: nat
    ghost var pushed: seq<Closed>
    ghost var restored: seq<Closed>
    ghost var evicted: seq<Closed>

    ghost function Links(): map<nat, seq<Link>>
      reads `sessions, sessions.Values
    {
      map i | i in sessions :: sessions[i].windows
    }

    ghost function Abs(): State
      reads this, sessions.Values
    {
      State(closed, reserved, count, next, Links(), recovery, nextSession, drawn, pushed, restored, evicted)
    }

    ghost predicate AllSorted()
      reads `sessions, sessions.Values
    {
      forall i :: i in sessions ==> Sorted(sessions[i].windows)
    }

    lemma SortedSessions()
      requires Valid()
      ensures AllSorted()
    {
      BaseFacts(Abs());
      assert forall i :: i in sessions ==> Abs().sessions[i] == sessions[i].windows;
    }

    /** The sessions are different objects, and a name stands for one of them. */
    ghost predicate Wired()
      reads `sessions, `recovery, `nextSession
    {
      && (forall i :: i in sessions ==> sessions[i].id == i && i < nextSession)
      && (recovery.Some? ==> recovery.value in sessions)
    }

    ghost predicate Valid()
      reads this, sessions.Values
    {
      Wired() && Base(Abs())
    }

    constructor (sessions: map<nat, Session>, nextSession: nat)
      requires forall i :: i in sessions ==> i < nextSession && sessions[i].id == i
      requires SessionsOk(map i | i in sessions :: sessions[i].windows)
      ensures Valid() && IsStart(Abs()) && this.sessions == sessions
    {
      closed, reserved, count, next := [], [], 0, 0;
      this.sessions, recovery, this.nextSession := sessions, None, nextSession;
      drawn, pushed, restored, evicted := 0, [], [], [];
    }

    /** Put an item on the stack, and drop the last ones while there are too many. */
    method StackPush(item: Closed)
      requires count == |closed| <= MAX_ITEMS
      modifies `closed, `count, `evicted
      ensures Abs() == RecoveryState.Push(old(Abs()), item)
    {
      closed := [item] + closed;
      count := count + 1;
      while count > MAX_ITEMS
        invariant count == |closed| && closed == ([item] + old(closed))[..count]
        invariant
          || (count == old(count) + 1 && evicted == old(evicted))
          || (count == old(count) == MAX_ITEMS && evicted == old(evicted) + [([item] + old(closed))[count]])
      {
        evicted := evicted + [closed[|closed| - 1]];
        closed := closed[..|closed| - 1];
        count := count - 1;
      }
    }

    lemma EmptyIsSorted()
      ensures Sorted([])
    {
    }

    /** The recovery session, made if there is none. */
    method RecoverySession() returns (s: Session)
      requires Wired() && AllSorted()
      modifies `sessions, `recovery, `nextSession
      ensures Wired() && recovery.Some? && sessions[recovery.value] == s && Sorted(s.windows)
      ensures Abs() == WithRecovery(old(Abs())) && fresh(sessions.Values - old(sessions.Values))
      ensures forall i :: i in old(sessions) ==> i in sessions && sessions[i] == old(sessions)[i]
    {
      hide Sorted;
      if recovery.Some? {
        return sessions[recovery.value];
      }
      EmptyIsSorted();
      assert nextSession !in sessions;
      s := new Session(nextSession);
      sessions, recovery := sessions[nextSession := s], Some(nextSession);
      nextSession := nextSession + 1;
    }

    /** Delete the window at a position of a session, and keep it alive in the recovery session; a window
        that looks untouched is killed. */
    method SoftDeleteWindow(id: nat, p: nat, untouched: bool) returns (ret: Retval)
      requires Valid() && id in sessions && p < |sessions[id].windows|
      modifies this, sessions.Values
      ensures Valid() && fresh(sessions.Values - old(sessions.Values))
      ensures Outcome(Abs(), ret) == DoDelete(old(Abs()), id, p, untouched)
    {
      hide Base, KeepWindow, Drawn, Removed;
      ghost var from := Abs();
      BaseFacts(from);
      SortedSessions();
      DeleteKeepsBase(from, id, p, untouched);
      var s := sessions[id];
      if |s.windows| == 1 {
        return Error;
      }
      if untouched {
        var _ := s.Detach(p);
        assert Links() == from.sessions[id := Removed(from.sessions[id], p)];
        return Normal;
      }
      ret := BreakLiveWindow(id, p);
    }

    /** Make an item for a window, move the window into the recovery session, and push the item. */
    method BreakLiveWindow(id: nat, p: nat) returns (ret: Retval)
      requires Wired() && AllSorted() && count == |closed| <= MAX_ITEMS
      requires id in sessions && p < |sessions[id].windows|
      modifies this, sessions.Values
      ensures Wired() && fresh(sessions.Values - old(sessions.Values))
      ensures var s1 := Drawn(old(Abs()));
        Outcome(Abs(), ret)
          == KeepWindow(s1, id, p, ItemFor(s1.next, id, old(sessions[id].windows), p, s1.recovery.value))
    {
      hide KeepWindow, Sorted;
      var item := ItemFromWindow(id, p);
      var kept := RecoverySession();
      ret := MoveAndPush(id, p, kept, item.(recovery := kept.id));
    }

    /** An item for a window, with the next sequence number. */
    method ItemFromWindow(id: nat, p: nat) returns (item: Closed)
      requires id in sessions && p < |sessions[id].windows|
      modifies `next, `drawn
      ensures Abs() == old(Abs()).(next := (old(next) + 1) % UINT_RANGE, drawn := old(drawn) + 1)
      ensures item == ItemFor(next, id, sessions[id].windows, p, 0)
    {
      next, drawn := (next + 1) % UINT_RANGE, drawn + 1;
      item := ItemFor(next, id, sessions[id].windows, p, 0);
    }

    /** Link a window in the recovery session, unlink it where it was, and push its item. */
    method MoveAndPush(id: nat, p: nat, kept: Session, item: Closed) returns (ret: Retval)
      requires Wired() && id in sessions && p < |sessions[id].windows|
      requires recovery.Some? && recovery.value in sessions && sessions[recovery.value] == kept && Sorted(kept.windows)
      requires count == |closed| <= MAX_ITEMS
      modifies `closed, `count, `evicted, `pushed, kept, sessions[id]
      ensures Wired()
      ensures Outcome(Abs(), ret) == KeepWindow(old(Abs()), id, p, item)
    {
      hide Sorted, AddedFirst, Free, Below, Removed, RecoveryState.Push;
      ghost var from := Abs();
      var ok, place := kept.Add(-1, item.window);
      if !ok {
        assert Links() == from.sessions;
        return Error;
      }
      var _ := sessions[id].Detach(if sessions[id] == kept && place <= p then p + 1 else p);
      pushed := pushed + [item];
      ghost var rls := AddedFirst(from.sessions[recovery.value], item.window).value;
      assert Links() == Moved(from.sessions, id, p, recovery.value, rls, place);
      StackPush(item);
      ret := Normal;
    }

    lemma BaseFacts(s: State)
      requires Base(s)
      ensures s.count == |s.closed| <= MAX_ITEMS && SessionIds(s)
      ensures forall i :: i in s.sessions ==> Sorted(s.sessions[i])
    {
    }

    /** The session a window goes back to: its own, or the fallback. */
    method RestoreDestination(item: Closed, fallback: Option<nat>) returns (s: Session?)
      requires fallback.Some? ==> fallback.value in sessions
      ensures s == if item.session in sessions then sessions[item.session]
                   else if fallback.Some? then sessions[fallback.value] else null
    {
      s := null;
      if item.session in sessions {
        s := sessions[item.session];
      } else if fallback.Some? {
        s := sessions[fallback.value];
      }
    }

    /** Put a window back into its session, and destroy the recovery session when it becomes empty. */
    method RestoreLiveWindow(item: Closed, fallback: Option<nat>) returns (ok: bool)
      requires Wired() && AllSorted()
      requires fallback.Some? ==> fallback.value in sessions
      modifies `sessions, `recovery, `restored, sessions.Values
      ensures Wired() && sessions.Values <= old(sessions.Values)
      ensures match Restore(old(Abs()), item, fallback)
        case None => !ok && Abs() == old(Abs())
        case Some(s) => ok && Abs() == s
    {
      hide RestoreInto, Sorted;
      var dst := RestoreDestination(item, fallback);
      if dst == null || item.recovery !in sessions {
        return false;
      }
      var kept := sessions[item.recovery];
      var at := kept.FindByWindow(item.window);
      if at == -1 {
        return false;
      }
      ok := MoveBack(item, dst, at);
    }

    /** Link a window in its session, then unlink it in the recovery session. */
    method MoveBack(item: Closed, dst: Session, at: nat) returns (ok: bool)
      requires Wired() && dst.id in sessions && sessions[dst.id] == dst && Sorted(dst.windows)
      requires item.recovery in sessions && at < |sessions[item.recovery].windows|
      modifies `sessions, `recovery, `restored, dst, sessions[item.recovery]
      ensures Wired() && sessions.Values <= old(sessions.Values)
      ensures match RestoreInto(old(Abs()), item, dst.id, at)
        case None => !ok && Abs() == old(Abs())
        case Some(s) => ok && Abs() == s
    {
      hide Attached, Place, Unlinked, Removed, Sorted;
      ghost var from := Abs();
      var place;
      ok, place := AttachAtSavedPosition(dst, item);
      assert Links() == from.sessions[dst.id := dst.windows];
      if !ok {
        assert Links() == from.sessions;
        return;
      }
      restored := restored + [item];
      UnlinkWindow(item.recovery, if dst.id == item.recovery && place <= at then at + 1 else at);
    }

    /** Unlink a window from a session, and destroy the session when it becomes empty. */
    method UnlinkWindow(id: nat, p: nat)
      requires Wired() && id in sessions && p < |sessions[id].windows|
      modifies `sessions, `recovery, sessions[id]
      ensures Wired()
      ensures Abs() == Unlinked(old(Abs()), id, p) && sessions.Values <= old(sessions.Values)
    {
      hide Removed;
      var empty := sessions[id].Detach(p);
      if empty {
        DestroySession(id);
      }
    }

    /** Reopen the latest closed item; if that fails it stays where it was. */
    method ReopenLatest(fallback: Option<nat>) returns (ret: Retval)
      requires Valid() && Enabled(Abs(), Reopen(fallback))
      modifies this, sessions.Values
      ensures Valid() && sessions.Values <= old(sessions.Values)
      ensures Outcome(Abs(), ret) == DoReopen(old(Abs()), fallback)
    {
      hide Base, Inv, Restore, RecoveryState.Push;
      ReopenKeepsInv(Abs(), fallback);
      BaseFacts(Abs());
      SortedSessions();
      if |closed| == 0 {
        return Normal;
      }
      var item := closed[0];
      closed, count := closed[1..], count - 1;
      var ok := RestoreLiveWindow(item, fallback);
      if !ok {
        StackPush(item);
        return Error;
      }
      return Normal;
    }

    /** Move the latest closed item to the reserved ones. */
    method ReserveLatest()
      requires Valid()
      modifies this
      ensures Valid() && Abs() == DoReserve(old(Abs())) && sessions == old(sessions)
    {
      hide Base, Inv;
      ReserveKeepsInv(Abs());
      BaseFacts(Abs());
      if |closed| > 0 {
        closed, count, reserved := closed[1..], count - 1, reserved + [closed[0]];
      }
    }

    /** Take the first reserved item with a sequence number. */
    method ReservedPopBySequence(q: nat) returns (item: Option<Closed>)
      modifies `reserved
      ensures var k := Find(old(reserved), q);
        if k < |old(reserved)| then item == Some(old(reserved)[k]) && Abs() == TakeReserved(old(Abs()), k)
        else item == None && Abs() == old(Abs())
    {
      var k := 0;
      while k < |reserved|
        invariant 0 <= k <= |reserved| && k <= Find(reserved, q) && reserved == old(reserved)
      {
        if reserved[k].sequence == q {
          item := Some(reserved[k]);
          reserved := reserved[..k] + reserved[k + 1..];
          return;
        }
        k := k + 1;
      }
      item := None;
    }

    /** Reopen a reserved item; if that fails it is closed again. */
    method ClaimReserved(q: int, fallback: Option<nat>) returns (ret: Retval)
      requires Valid() && Enabled(Abs(), Claim(q, fallback))
      modifies this, sessions.Values
      ensures Valid() && sessions.Values <= old(sessions.Values)
      ensures Outcome(Abs(), ret) == DoClaim(old(Abs()), q, fallback)
    {
      hide Base, Inv, Restore, RecoveryState.Push;
      ClaimKeepsInv(Abs(), q, fallback);
      BaseFacts(Abs());
      SortedSessions();
      if !IsSequence(q) {
        return Error;
      }
      var item := ReservedPopBySequence(q);
      if item.None? {
        return Normal;
      }
      var ok := RestoreLiveWindow(item.value, fallback);
      if !ok {
        StackPush(item.value);
        return Error;
      }
      return Normal;
    }

    /** Close a reserved item again. */
    method ReleaseReserved(q: int) returns (ret: Retval)
      requires Valid()
      modifies this
      ensures Valid() && sessions == old(sessions) && Outcome(Abs(), ret) == DoRelease(old(Abs()), q)
    {
      hide Base, Inv, RecoveryState.Push;
      BaseFacts(Abs());
      ClaimKeepsInv(Abs(), q, None);
      if !IsSequence(q) {
        return Error;
      }
      var item := ReservedPopBySequence(q);
      if item.Some? {
        StackPush(item.value);
      }
      return Normal;
    }

    /** Destroy the recovery session and forget all items. */
    method RecoveryClear()
      requires Valid()
      modifies this
      ensures Valid() && Abs() == DoClear(old(Abs()))
    {
      hide Base, Inv;
      ghost var from := Abs();
      ClearKeepsInv(from);
      if recovery.Some? {
        DestroySession(recovery.value);
      }
      StackClear();
      assert Abs() == DoClear(from);
    }

    method StackClear()
      modifies `closed, `reserved, `count, `next, `drawn, `pushed, `restored, `evicted
      ensures Abs() == old(Abs()).(closed := [], reserved := [], count := 0, next := 0, drawn := 0, pushed := [],
        restored := [], evicted := [])
    {
      ghost var links := Links();
      closed, reserved, count, next := [], [], 0, 0;
      drawn, pushed, restored, evicted := 0, [], [], [];
      assert Links() == links;
    }

    method DestroySession(id: nat)
      requires Wired() && id in sessions
      modifies `sessions, `recovery
      ensures Wired() && sessions == old(sessions) - {id} && Links() == old(Links()) - {id}
      ensures recovery == if old(recovery) == Some(id) then None else old(recovery)
    {
      sessions := sessions - {id};
      recovery := if recovery == Some(id) then None else recovery;
    }
  }

  /** Link a window where it was: behind its old left neighbour, else before its old right one, else at
      its old position. The new link is at place. */
  method AttachAtSavedPosition(s: Session, item: Closed) returns (ok: bool, place: nat)
    requires Sorted(s.windows)
    modifies s
    ensures match Attached(old(s.windows), item)
      case None => !ok && s.windows == old(s.windows)
      case Some(ls) => ok && s.windows == ls && place == Place(old(s.windows), item)
  {
    hide Sorted, Free, Below, Used, Inserted, Shifted, AddedFirst, AddedAt;
    if item.left.Some? {
      var p := s.FindByWindow(item.left.value);
      if p != -1 {
        ok, place := AttachBeside(s, p, false, item.window);
        return;
      }
    }
    if item.right.Some? {
      var p := s.FindByWindow(item.right.value);
      if p != -1 {
        ok, place := AttachBeside(s, p, true, item.window);
        return;
      }
    }
    if item.position >= |s.windows| {
      ok, place := s.Add(-1, item.window);
      return;
    }
    ok, place := AttachBeside(s, item.position, true, item.window);
  }

  /** Make an index before or after a link free, and link a window there. */
  method AttachBeside(s: Session, p: nat, before: bool, w: nat) returns (ok: bool, place: nat)
    requires Sorted(s.windows) && p < |s.windows|
    modifies s
    ensures match AddedAt(old(s.windows), if before then old(s.windows)[p].idx else old(s.windows)[p].idx + 1, w)
      case None => !ok && s.windows == old(s.windows)
      case Some(ls) => ok && s.windows == ls && place == if before then p else p + 1
  {
    hide Free, Below, Used, Inserted, Shifted;
    ghost var ls := s.windows;
    var idx := s.ShuffleUp(p, before);
    if idx == -1 {
      return false, 0;
    }
    ShiftedIsSorted(ls, idx);
    BelowAt(ls, p);
    ok, place := s.Add(idx, w);
  }
}
