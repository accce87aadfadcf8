/** wait-for: commands that suspend queue items on named channels, and continue them. */
module WaitFor {
  import opened Common
  import opened WaitChannelSpec
  import opened CmdLists
  import opened CmdqItems

  class WaitChannel {
    const name: string
    var locked: bool
    var woken: bool
    var waiters: seq<CmdqItem>
    var lockers: seq<CmdqItem>

    constructor (name: string)
      ensures this.name == name && Value() == Idle()
    {
      this.name := name;
      locked, woken, waiters, lockers := false, false, [], [];
    }

    ghost function Value(): Chan<CmdqItem>
      reads `locked, `woken, `waiters, `lockers
    {
      Chan(locked, woken, waiters, lockers)
    }

    /** Continue and remove every waiter. */
    method DrainWaiters()
      modifies this`waiters, waiters`waiting
      ensures waiters == [] && forall i :: i in old(waiters) ==> !i.waiting
    {
      while |waiters| > 0
        invariant |waiters| <= |old(waiters)| && waiters == old(waiters)[|old(waiters)| - |waiters|..]
        invariant forall k :: 0 <= k < |old(waiters)| - |waiters| ==> !old(waiters)[k].waiting
      {
        waiters[0].Continue();
        waiters := waiters[1..];
      }
    }

    /** Continue and remove every locker. */
    method DrainLockers()
      modifies this`lockers, lockers`waiting
      ensures lockers == [] && forall i :: i in old(lockers) ==> !i.waiting
    {
      while |lockers| > 0
        invariant |lockers| <= |old(lockers)| && lockers == old(lockers)[|old(lockers)| - |lockers|..]
        invariant forall k :: 0 <= k < |old(lockers)| - |lockers| ==> !old(lockers)[k].waiting
      {
        lockers[0].Continue();
        lockers := lockers[1..];
      }
    }

    /** Continue and remove everything, and leave the channel woken and unlocked. */
    method DrainAll()
      modifies this, waiters`waiting, lockers`waiting
      ensures Value() == Chan(false, true, [], [])
      ensures forall i :: i in old(waiters) || i in old(lockers) ==> !i.waiting
    {
      DrainWaiters();
      woken := true;
      DrainLockers();
      locked := false;
    }
  }

  function Only(wc: WaitChannel?): set<WaitChannel> {
    if wc == null then {} else {wc}
  }

  ghost function ItemsOf(wc: WaitChannel?): set<CmdqItem>
    reads Only(wc)`locked, Only(wc)`woken, Only(wc)`waiters, Only(wc)`lockers
  {
    if wc == null then {} else Elements(Members(wc.Value()))
  }

  class WaitChannels {
    var tree: map<string, WaitChannel>

    ghost predicate Valid()
      reads `tree
    {
      forall n :: n in tree ==> tree[n].name == n
    }

    /** The table this tree stands for. */
    ghost function Contents(): Table<CmdqItem>
      reads `tree, tree.Values`locked, tree.Values`woken, tree.Values`waiters, tree.Values`lockers
    {
      map n | n in tree :: tree[n].Value()
    }

    constructor ()
      ensures Valid() && Contents() == map[] && Items() == {}
    {
      tree := map[];
    }

    method Find(name: string) returns (wc: WaitChannel?)
      ensures wc == if name in tree then tree[name] else null
    {
      wc := if name in tree then tree[name] else null;
    }

    method Add(name: string) returns (wc: WaitChannel)
      requires Valid() && name !in tree
      modifies this
      ensures Valid() && fresh(wc) && tree == old(tree)[name := wc] && wc.name == name && wc.Value() == Idle()
    {
      wc := new WaitChannel(name);
      tree := tree[name := wc];
    }

    method Remove(wc: WaitChannel)
      requires Valid() && wc.name in tree && tree[wc.name] == wc
      modifies this
      ensures Valid() && Contents() == Removed(old(Contents()), wc.name)
      ensures tree == old(tree) || tree == old(tree) - {wc.name}
    {
      if wc.locked { return; }
      if |wc.waiters| > 0 || !wc.woken { return; }
      tree := tree - {wc.name};
    }

    /** The channel that was found, or a new one. */
    method FindOrAdd(name: string, found: WaitChannel?) returns (wc: WaitChannel)
      requires Valid() && found == if name in tree then tree[name] else null
      modifies this
      ensures Valid() && (if found == null then fresh(wc) else wc == found) && wc.name == name
      ensures tree == old(tree)[name := wc] && Contents() == Added(old(Contents()), name)
      ensures found == null ==> wc.Value() == Idle()
    {
      if found == null {
        wc := Add(name);
      } else {
        wc := found;
      }
    }

    /** Is this channel in the tree? */
    ghost predicate Has(wc: WaitChannel)
      reads `tree
    {
      Valid() && wc.name in tree && tree[wc.name] == wc
    }

    /** Set the fields of a channel. */
    method Set(wc: WaitChannel, locked: bool, woken: bool, waiters: seq<CmdqItem>, lockers: seq<CmdqItem>)
      requires Has(wc)
      modifies wc
      ensures Contents() == old(Contents())[wc.name := Chan(locked, woken, waiters, lockers)]
      ensures wc.Value() == Chan(locked, woken, waiters, lockers)
    {
      assert forall n :: n in tree && n != wc.name ==> tree[n] != wc;
      wc.locked, wc.woken, wc.waiters, wc.lockers := locked, woken, waiters, lockers;
    }

    /** Continue and remove every waiter of a channel. */
    method Drain(wc: WaitChannel)
      requires Has(wc)
      modifies wc`waiters, wc.waiters`waiting
      ensures Contents() == old(Contents())[wc.name := old(wc.Value()).(waiters := [])]
      ensures wc.waiters == [] && forall i :: i in old(wc.waiters) ==> !i.waiting
    {
      assert forall n :: n in tree && n != wc.name ==> tree[n] != wc;
      wc.DrainWaiters();
    }

    /** Continue and remove every waiter of a channel, and free it if that leaves it idle. */
    method WakeAll(wc: WaitChannel)
      requires Has(wc)
      modifies this, wc`waiters, wc.waiters`waiting
      ensures Valid() && (tree == old(tree) || tree == old(tree) - {wc.name})
      ensures var t := old(Contents())[wc.name := old(wc.Value()).(waiters := [])]; Contents() == Removed(t, wc.name)
      ensures forall i :: i in old(wc.waiters) ==> !i.waiting
    {
      hide Removed;
      Drain(wc);
      Remove(wc);
    }

    method Signal(name: string, found: WaitChannel?) returns (ret: Retval)
      requires Valid() && found == if name in tree then tree[name] else null
      modifies this, found, ItemsOf(found)`waiting
      ensures Valid() && forall x :: x in tree.Values ==> x in old(tree.Values) || fresh(x)
      ensures var o := DoSignal(old(Contents()), name);
        && ret == o.ret && Contents() == o.table
        && (forall i :: i in o.continued ==> !i.waiting)
        && (forall i :: i in old(ItemsOf(found)) && i !in o.continued ==> i.waiting == old(i.waiting))
    {
      hide Added, Removed;
      var wc := FindOrAdd(name, found);
      if |wc.waiters| == 0 && !wc.woken {
        Set(wc, wc.locked, true, wc.waiters, wc.lockers);
        return Normal;
      }
      WakeAll(wc);
      return Normal;
    }

    method Await(item: CmdqItem, client: bool, name: string, found: WaitChannel?) returns (ret: Retval)
      requires Valid() && found == if name in tree then tree[name] else null
      modifies this, found
      ensures Valid() && forall x :: x in tree.Values ==> x in old(tree.Values) || fresh(x)
      ensures var o := DoAwait(old(Contents()), name, item, client); ret == o.ret && Contents() == o.table
    {
      hide Added, Removed;
      if !client { return Error; }
      var wc := FindOrAdd(name, found);
      if wc.woken {
        Remove(wc);
        return Normal;
      }
      Set(wc, wc.locked, wc.woken, wc.waiters + [item], wc.lockers);
      return Wait;
    }

    method Lock(item: CmdqItem, client: bool, name: string, found: WaitChannel?) returns (ret: Retval)
      requires Valid() && found == if name in tree then tree[name] else null
      modifies this, found
      ensures Valid() && forall x :: x in tree.Values ==> x in old(tree.Values) || fresh(x)
      ensures var o := DoLock(old(Contents()), name, item, client); ret == o.ret && Contents() == o.table
    {
      hide Added, Removed;
      if !client { return Error; }
      var wc := FindOrAdd(name, found);
      if wc.locked {
        Set(wc, wc.locked, wc.woken, wc.waiters, wc.lockers + [item]);
        return Wait;
      }
      Set(wc, true, wc.woken, wc.waiters, wc.lockers);
      return Normal;
    }

    method Unlock(name: string, found: WaitChannel?) returns (ret: Retval)
      requires Valid() && found == if name in tree then tree[name] else null
      modifies this, found, ItemsOf(found)`waiting
      ensures Valid() && forall x :: x in tree.Values ==> x in old(tree.Values) || fresh(x)
      ensures var o := DoUnlock(old(Contents()), name);
        && ret == o.ret && Contents() == o.table
        && (forall i :: i in o.continued ==> !i.waiting)
        && (forall i :: i in old(ItemsOf(found)) && i !in o.continued ==> i.waiting == old(i.waiting))
    {
      hide Removed;
      if found == null || !found.locked { return Error; }
      if |found.lockers| > 0 {
        assert found.lockers[0] in ItemsOf(found);
        found.lockers[0].Continue();
        Set(found, found.locked, found.woken, found.waiters, found.lockers[1..]);
      } else {
        Set(found, false, found.woken, found.waiters, found.lockers);
        Remove(found);
      }
      return Normal;
    }

    /** Every item on the waiter and locker lists. */
    ghost function Items(): set<CmdqItem>
      reads `tree, tree.Values`locked, tree.Values`woken, tree.Values`waiters, tree.Values`lockers
    {
      set n, i | n in tree && i in Members(tree[n].Value()) :: i
    }

    lemma ItemsAreSuspended()
      ensures Items() == Suspended(Contents())
    {
      var t := Contents();
      assert forall n :: n in tree ==> n in t && t[n] == tree[n].Value();
    }

    lemma ItemsOfChannel(name: string)
      requires name in tree
      ensures ItemsOf(tree[name]) <= Items()
    {
    }

    method Exec(item: CmdqItem, client: bool, kind: WaitKind, name: string) returns (ret: Retval)
      requires Valid()
      modifies this, tree.Values, Items()`waiting
      ensures Valid() && forall x :: x in tree.Values ==> x in old(tree.Values) || fresh(x)
      ensures var o := Step(old(Contents()), OpOf(item, client, kind, name));
        && ret == o.ret && Contents() == o.table
        && (forall i :: i in o.continued ==> !i.waiting)
        && (forall i :: i in old(Items()) && i !in o.continued ==> i.waiting == old(i.waiting))
    {
      hide DoSignal, DoUnlock, DoFlush, Added, Removed;
      var wc := Find(name);
      if wc != null {
        ItemsOfChannel(name);
      }
      match kind
      case SignalChannel => ret := Signal(name, wc);
      case LockChannel => ret := Lock(item, client, name, wc);
      case UnlockChannel => ret := Unlock(name, wc);
      case AwaitChannel => ret := Await(item, client, name, wc);
    }

    /** One round of Flush. */
    method FlushOne(n: string)
      requires Valid() && n in tree
      modifies this, tree[n], ItemsOf(tree[n])`waiting
      ensures Valid() && tree == old(tree) - {n} && Contents() == old(Contents()) - {n}
      ensures forall i :: i in old(ItemsOf(tree[n])) ==> !i.waiting
    {
      var wc := tree[n];
      ghost var t := Contents();
      Empty(wc);
      Remove(wc);
      assert t[n := Chan(false, true, [], [])] - {n} == t - {n};
    }

    /** Continue everything on a channel, and leave it woken and unlocked. */
    method Empty(wc: WaitChannel)
      requires Has(wc)
      modifies wc, ItemsOf(wc)`waiting
      ensures Contents() == old(Contents())[wc.name := Chan(false, true, [], [])]
      ensures wc.Value() == Chan(false, true, [], [])
      ensures forall i :: i in old(ItemsOf(wc)) ==> !i.waiting
    {
      assert forall i :: i in ItemsOf(wc) <==> i in wc.waiters || i in wc.lockers;
      assert forall n :: n in tree && n != wc.name ==> tree[n] != wc;
      wc.DrainAll();
    }

    /** Continue everything and free every channel. The tree is walked in some order; the result
        does not depend on it. */
    method Flush()
      requires Valid()
      modifies this, tree.Values, Items()`waiting
      ensures Valid()
      ensures Contents() == DoFlush(old(Contents())).table
      ensures forall i :: i in old(Items()) ==> !i.waiting
    {
      hide Suspended;
      var left := tree.Keys;
      ghost var start := Contents();
      ItemsAreSuspended();
      while left != {}
        invariant left == tree.Keys && tree.Values <= old(tree.Values) && Valid()
        invariant Suspended(Contents()) <= Suspended(start) == old(Items())
        invariant forall i :: i in Suspended(start) ==> i in Suspended(Contents()) || !i.waiting
        decreases left
      {
        var n :| n in left;
        SuspendedWithout(Contents(), n);
        FlushOne(n);
        left := left - {n};
      }
      NothingSuspended();
    }
  }

  lemma SuspendedWithout(t: Table<CmdqItem>, n: string)
    requires n in t
    ensures Suspended(t - {n}) <= Suspended(t) && Elements(Members(t[n])) <= Suspended(t)
    ensures Suspended(t) <= Suspended(t - {n}) + Elements(Members(t[n]))
  {
    forall i | i in Suspended(t) && i !in Members(t[n]) ensures i in Suspended(t - {n}) {
      var m :| m in t && i in Members(t[m]);
      assert m in t - {n} && i in Members((t - {n})[m]);
    }
  }

  lemma NothingSuspended()
    ensures Suspended<CmdqItem>(map[]) == {}
  {
  }

  function OpOf(item: CmdqItem, client: bool, kind: WaitKind, name: string): Op<CmdqItem> {
    match kind
    case SignalChannel => WaitChannelSpec.Signal(name)
    case LockChannel => WaitChannelSpec.Lock(name, item, client)
    case UnlockChannel => WaitChannelSpec.Unlock(name)
    case AwaitChannel => WaitChannelSpec.Await(name, item, client)
  }
}
