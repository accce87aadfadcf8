/** The window links of a session, in the order of their indices, and the operations that make room
    among them. */
module Winlinks {
  import opened Common

  datatype Link = Link(idx: int, window: nat)

  ghost predicate Sorted(ls: seq<Link>) {
    && (forall k :: 0 <= k < |ls| ==> 0 <= ls[k].idx <= INT_MAX)
    && (forall j, k :: 0 <= j < k < |ls| ==> ls[j].idx < ls[k].idx)
  }

  /** No window is linked twice. */
  ghost predicate Once(ls: seq<Link>) {
    forall j, k :: 0 <= j < k < |ls| ==> ls[j].window != ls[k].window
  }

  /** The windows in their order. */
  function Order(ls: seq<Link>): (o: seq<nat>)
    ensures |o| == |ls| && forall k :: 0 <= k < |ls| ==> o[k] == ls[k].window
  {
    seq(|ls|, k requires 0 <= k < |ls| => ls[k].window)
  }

  ghost predicate Used(ls: seq<Link>, i: int) {
    exists k :: 0 <= k < |ls| && ls[k].idx == i
  }

  /** How many links have smaller indices. */
  function Below(ls: seq<Link>, idx: int): (p: nat)
    ensures p <= |ls|
    ensures forall k :: 0 <= k < p ==> ls[k].idx < idx
    ensures p < |ls| ==> ls[p].idx >= idx
  {
    if |ls| == 0 || ls[0].idx >= idx then 0 else 1 + Below(ls[1..], idx)
  }

  /** How many links from position p on have the indices idx, idx + 1, and so on. */
  function Run(ls: seq<Link>, p: nat, idx: int): (n: nat)
    requires p <= |ls|
    ensures p + n <= |ls|
    ensures forall k :: p <= k < p + n ==> ls[k].idx == idx + (k - p)
    ensures p + n < |ls| ==> ls[p + n].idx != idx + n
    decreases |ls| - p
  {
    if p < |ls| && ls[p].idx == idx then 1 + Run(ls, p + 1, idx + 1) else 0
  }

  /** The first index from idx on that is free. */
  function Free(ls: seq<Link>, idx: int): (f: int)
    ensures f >= idx
  {
    idx + Run(ls, Below(ls, idx), idx)
  }

  /** Where the links around the run that starts at idx lie. */
  lemma RunFacts(ls: seq<Link>, idx: int)
    requires Sorted(ls)
    ensures var p, n := Below(ls, idx), Run(ls, Below(ls, idx), idx);
      && (forall k :: 0 <= k < p ==> ls[k].idx < idx)
      && (forall k :: p + n <= k < |ls| ==> idx + n < ls[k].idx)
  {
    hide Below, Run;
    var p, n := Below(ls, idx), Run(ls, Below(ls, idx), idx);
    if p + n < |ls| {
      assert n > 0 ==> ls[p + n - 1].idx < ls[p + n].idx;
      assert forall k :: p + n <= k < |ls| ==> ls[p + n].idx <= ls[k].idx;
    }
  }

  lemma FreeIsFirst(ls: seq<Link>, idx: int)
    requires Sorted(ls)
    ensures !Used(ls, Free(ls, idx))
    ensures forall i :: idx <= i < Free(ls, idx) ==> Used(ls, i)
  {
    RunFacts(ls, idx);
    var p := Below(ls, idx);
    forall i | idx <= i < Free(ls, idx) ensures Used(ls, i) {
      assert ls[p + (i - idx)].idx == i;
    }
  }

  /** An index made free: the links from it to the next gap move up by one. */
  function Shifted(ls: seq<Link>, idx: int): (r: seq<Link>)
    ensures |r| == |ls|
  {
    var p, n := Below(ls, idx), Run(ls, Below(ls, idx), idx);
    ls[..p] + Up(ls[p..p + n]) + ls[p + n..]
  }

  function Inserted(ls: seq<Link>, idx: int, w: nat): (r: seq<Link>)
    ensures |r| == |ls| + 1
  {
    var p := Below(ls, idx);
    ls[..p] + [Link(idx, w)] + ls[p..]
  }

  lemma InsertedLinks(ls: seq<Link>, idx: int, w: nat)
    ensures var p, r := Below(ls, idx), Inserted(ls, idx, w);
      && r[p] == Link(idx, w) && (forall k :: 0 <= k < p ==> r[k] == ls[k])
      && forall k :: p <= k < |ls| ==> r[k + 1] == ls[k]
  {
    hide Below;
  }

  /** A new link of an index that is made free, if there is a gap below the largest index. */
  function AddedAt(ls: seq<Link>, idx: int, w: nat): (r: Option<seq<Link>>)
    ensures r.Some? ==> |r.value| == |ls| + 1
  {
    if Free(ls, idx) < INT_MAX then Some(Inserted(Shifted(ls, idx), idx, w)) else None
  }

  /** A new link of the first free index. */
  function AddedFirst(ls: seq<Link>, w: nat): (r: Option<seq<Link>>)
    ensures r.Some? ==> |r.value| == |ls| + 1
  {
    if Free(ls, 0) <= INT_MAX then Some(Inserted(ls, Free(ls, 0), w)) else None
  }

  function Up(ls: seq<Link>): (r: seq<Link>)
    ensures |r| == |ls| && forall k :: 0 <= k < |ls| ==> r[k] == Link(ls[k].idx + 1, ls[k].window)
  {
    seq(|ls|, k requires 0 <= k < |ls| => Link(ls[k].idx + 1, ls[k].window))
  }

  lemma ShiftedLinks(ls: seq<Link>, idx: int)
    ensures var p, n, r := Below(ls, idx), Run(ls, Below(ls, idx), idx), Shifted(ls, idx);
      && (forall k :: 0 <= k < |ls| && !(p <= k < p + n) ==> r[k] == ls[k])
      && (forall k :: p <= k < p + n ==> r[k] == Link(ls[k].idx + 1, ls[k].window))
      && Order(r) == Order(ls)
  {
    hide Below, Run;
    var p, n, r := Below(ls, idx), Run(ls, Below(ls, idx), idx), Shifted(ls, idx);
    assert forall k :: 0 <= k < |ls| ==> r[k].window == ls[k].window;
  }

  lemma ShiftedIsSorted(ls: seq<Link>, idx: int)
    requires Sorted(ls) && Free(ls, idx) < INT_MAX
    ensures Sorted(Shifted(ls, idx)) && !Used(Shifted(ls, idx), idx)
    ensures Below(Shifted(ls, idx), idx) == Below(ls, idx)
  {
    hide Below, Run, Shifted, Up;
    var p, n, r := Below(ls, idx), Run(ls, Below(ls, idx), idx), Shifted(ls, idx);
    ShiftedLinks(ls, idx);
    RunFacts(ls, idx);
    BelowIs(r, idx, p);
  }

  lemma {:induction false} BelowIs(ls: seq<Link>, idx: int, p: nat)
    requires p <= |ls|
    requires forall k :: 0 <= k < p ==> ls[k].idx < idx
    requires p < |ls| ==> ls[p].idx >= idx
    ensures Below(ls, idx) == p
  {
    if p > 0 {
      BelowIs(ls[1..], idx, p - 1);
    }
  }

  lemma InsertedInOrder(ls: seq<Link>, idx: int, w: nat)
    requires Sorted(ls) && 0 <= idx <= INT_MAX && !Used(ls, idx)
    ensures Sorted(Inserted(ls, idx, w))
    ensures Order(Inserted(ls, idx, w)) == Order(ls)[..Below(ls, idx)] + [w] + Order(ls)[Below(ls, idx)..]
  {
    hide Below;
    var p := Below(ls, idx);
    assert p < |ls| ==> ls[p].idx != idx;
    InsertKeepsSorted(ls[..p], Link(idx, w), ls[p..]);
    assert Order(ls[..p] + [Link(idx, w)] + ls[p..]) == Order(ls)[..p] + [w] + Order(ls)[p..];
  }

  lemma InsertKeepsSorted(front: seq<Link>, l: Link, back: seq<Link>)
    requires Sorted(front) && Sorted(back) && 0 <= l.idx <= INT_MAX
    requires |front| > 0 ==> front[|front| - 1].idx < l.idx
    requires |back| > 0 ==> l.idx < back[0].idx
    ensures Sorted(front + [l] + back)
  {
    var r := front + [l] + back;
    forall j, k | 0 <= j < k < |r| ensures r[j].idx < r[k].idx {
      assert j < |front| ==> r[j].idx < l.idx;
      assert k > |front| ==> l.idx < r[k].idx;
    }
  }

  /** The new window stands where the link of that index stood; all others keep their order. */
  lemma AddedInOrder(ls: seq<Link>, idx: int, w: nat)
    requires Sorted(ls) && 0 <= idx && AddedAt(ls, idx, w).Some?
    ensures var r := AddedAt(ls, idx, w).value;
      Sorted(r) && Order(r) == Order(ls)[..Below(ls, idx)] + [w] + Order(ls)[Below(ls, idx)..]
  {
    hide Below, Run, Sorted, Shifted, Inserted, Order;
    ShiftedLinks(ls, idx);
    ShiftedIsSorted(ls, idx);
    InsertedInOrder(Shifted(ls, idx), idx, w);
  }

  function Removed(ls: seq<Link>, p: nat): (r: seq<Link>)
    requires p < |ls|
    ensures |r| == |ls| - 1
  {
    ls[..p] + ls[p + 1..]
  }

  /** The position of a window, or the number of links. */
  function Position(ls: seq<Link>, w: nat): (p: nat)
    ensures p <= |ls| && (p < |ls| ==> ls[p].window == w)
    ensures forall k :: 0 <= k < p ==> ls[k].window != w
  {
    if |ls| == 0 || ls[0].window == w then 0 else 1 + Position(ls[1..], w)
  }

  lemma BelowAt(ls: seq<Link>, k: nat)
    requires Sorted(ls) && k < |ls|
    ensures Below(ls, ls[k].idx) == k && Below(ls, ls[k].idx + 1) == k + 1
  {
  }

  class Session {
    const id: nat
    var windows: seq<Link>

    constructor (id: nat)
      ensures this.id == id && windows == []
    {
      this.id, windows := id, [];
    }

    /** The position of an index in the tree, or -1. */
    method FindByIndex(idx: int) returns (p: int)
      requires Sorted(windows)
      ensures p == -1 <==> !Used(windows, idx)
      ensures p != -1 ==> 0 <= p < |windows| && windows[p].idx == idx
    {
      p := 0;
      while p < |windows|
        invariant 0 <= p <= |windows| && forall k :: 0 <= k < p ==> windows[k].idx != idx
      {
        if windows[p].idx == idx { return; }
        p := p + 1;
      }
      p := -1;
    }

    method FindByWindow(w: nat) returns (p: int)
      ensures p == if Position(windows, w) < |windows| then Position(windows, w) else -1
    {
      p := 0;
      while p < |windows|
        invariant 0 <= p <= |windows| && forall k :: 0 <= k < p ==> windows[k].window != w
      {
        if windows[p].window == w { return; }
        p := p + 1;
      }
      p := -1;
    }

    /** The first free index, or -1. */
    method NextIndex() returns (i: int)
      requires Sorted(windows)
      ensures i == if Free(windows, 0) <= INT_MAX then Free(windows, 0) else -1
    {
      hide Free, Sorted;
      FreeIsFirst(windows, 0);
      i := 0;
      var at := FindByIndex(i);
      while at != -1 && i < INT_MAX
        invariant 0 <= i <= INT_MAX && i <= Free(windows, 0)
        invariant at == -1 <==> !Used(windows, i)
        decreases INT_MAX - i
      {
        i := i + 1;
        at := FindByIndex(i);
      }
      if at != -1 {
        return -1;
      }
    }

    /** Take a link away. */
    method Detach(p: nat) returns (empty: bool)
      requires p < |windows|
      modifies this
      ensures windows == Removed(old(windows), p) && empty == (windows == [])
    {
      windows := Removed(windows, p);
      empty := |windows| == 0;
    }

    /** Add a link of an index, or of the first free index if that is -1; the new link is at place. */
    method Add(idx: int, w: nat) returns (ok: bool, place: nat)
      requires Sorted(windows) && -1 <= idx <= INT_MAX
      modifies this
      ensures ok ==> place == Below(old(windows), if idx == -1 then Free(old(windows), 0) else idx)
      ensures idx == -1 ==> match AddedFirst(old(windows), w)
        case None => !ok && windows == old(windows)
        case Some(ls) => ok && windows == ls
      ensures idx >= 0 ==> ok == !Used(old(windows), idx)
      ensures idx >= 0 ==> windows == if ok then Inserted(old(windows), idx, w) else old(windows)
    {
      hide Free, Below, Inserted, Used, Sorted;
      var i := idx;
      if idx < 0 {
        i := NextIndex();
        if i == -1 { return false, 0; }
      } else {
        var at := FindByIndex(idx);
        if at != -1 { return false, 0; }
      }
      ok, place := true, Below(windows, i);
      windows := Inserted(windows, i, w);
    }

    /** Make the index before or after a link free: everything from there to the next gap moves up. */
    method ShuffleUp(p: nat, before: bool) returns (idx: int)
      requires Sorted(windows) && p < |windows|
      modifies this
      ensures var i := if before then old(windows)[p].idx else old(windows)[p].idx + 1;
        if Free(old(windows), i) < INT_MAX then idx == i && windows == Shifted(old(windows), i)
        else idx == -1 && windows == old(windows)
    {
      hide Below, Run, Sorted, Shifted, Up;
      ghost var ls := windows;
      idx := if before then windows[p].idx else windows[p].idx + 1;
      FreeIsFirst(ls, idx);
      var last := idx;
      while last < INT_MAX
        invariant idx <= last <= Free(ls, idx) && windows == ls
      {
        var at := FindByIndex(last);
        if at == -1 { break; }
        last := last + 1;
      }
      if last >= INT_MAX {
        return -1;
      }
      MoveUp(idx, last);
    }

    /** Move the link before a free index, which is at position p, up to it. */
    method MoveLink(last: int, ghost p: nat)
      requires Sorted(windows) && last < INT_MAX && !Used(windows, last)
      requires p < |windows| && windows[p].idx == last - 1
      modifies this
      ensures windows == old(windows)[p := Link(last, old(windows)[p].window)]
      ensures Sorted(windows) && !Used(windows, last - 1)
    {
      hide Sorted;
      var at := FindByIndex(last - 1);
      MoveOne(windows, at, p);
      windows := windows[at := Link(last, windows[at].window)];
    }

    /** Everything from idx to last - 1 up by one, starting at the end. */
    method MoveUp(idx: int, end: int)
      requires Sorted(windows) && end == Free(windows, idx) < INT_MAX
      modifies this
      ensures windows == Shifted(old(windows), idx)
    {
      hide Below, Run, Sorted, Shifted, Up;
      ghost var ls := windows;
      ghost var q, n := Below(ls, idx), Run(ls, Below(ls, idx), idx);
      var last := end;
      assert MovedDownTo(ls, ls, q, n, n);
      FreeIsFirst(ls, idx);
      while last > idx
        invariant idx <= last <= end && Sorted(windows) && !Used(windows, last)
        invariant MovedDownTo(windows, ls, q, n, last - idx)
      {
        MoveLink(last, q + (last - 1 - idx));
        last := last - 1;
      }
      ShiftedLinks(ls, idx);
      assert windows == Shifted(ls, idx);
    }
  }

  /** Of the run of n links from q on, all but the first m have moved. */
  ghost predicate MovedDownTo(r: seq<Link>, ls: seq<Link>, q: nat, n: nat, m: nat) {
    && |r| == |ls|
    && (forall k :: 0 <= k < |ls| && !(q + m <= k < q + n) ==> r[k] == ls[k])
    && (forall k :: q + m <= k < q + n && k < |ls| ==> r[k] == Link(ls[k].idx + 1, ls[k].window))
  }

  lemma MoveOne(ls: seq<Link>, at: nat, other: nat)
    requires Sorted(ls) && at < |ls| && other < |ls| && ls[at].idx == ls[other].idx < INT_MAX
    requires !Used(ls, ls[at].idx + 1)
    ensures at == other
    ensures var r := ls[at := Link(ls[at].idx + 1, ls[at].window)]; Sorted(r) && !Used(r, ls[at].idx)
  {
    var r := ls[at := Link(ls[at].idx + 1, ls[at].window)];
    forall k | at < k < |ls| ensures ls[at].idx + 1 < ls[k].idx {
      assert ls[k].idx != ls[at].idx + 1;
    }
  }
}
