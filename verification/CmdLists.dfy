/** Command lists and the group numbers that decide what an error cancels. */
module CmdLists {
  import opened Common
  import opened WaitChannelSpec

  /** A command's immediate answer: only wait-for makes a queue wait in this model. */
  type Immediate = r: Retval | r != Wait witness Normal

  datatype WaitKind = SignalChannel | AwaitChannel | LockChannel | UnlockChannel

  /** What executing a command does. */
  datatype Action =
    | WaitFor(kind: WaitKind, channel: string)
    | Plain(ret: Immediate)

  datatype Entry = Entry(name: string, afterHook: bool, action: Action)

  function Constant(count: nat, g: nat): (s: seq<nat>) {
    seq(count, _ => g)
  }

  class Cmd {
    const entry: Entry
    var group: nat

    constructor (entry: Entry)
      ensures this.entry == entry && group == 0
    {
      this.entry, group := entry, 0;
    }
  }

  /** A list of commands, the group that commands appended to it join, and its references. */
  class CmdList {
    var references: int
    var group: nat
    var list: seq<Cmd>

    constructor (group: nat)
      ensures references == 1 && this.group == group && list == []
    {
      references, this.group, list := 1, group, [];
    }

    ghost function Groups(): (gs: seq<nat>)
      reads this, list
      ensures |gs| == |list| && forall k :: 0 <= k < |list| ==> gs[k] == list[k].group
    {
      seq(|list|, k requires 0 <= k < |list| reads this, list => list[k].group)
    }

    ghost function Entries(): (es: seq<Entry>)
      reads this
      ensures |es| == |list| && forall k :: 0 <= k < |list| ==> es[k] == list[k].entry
    {
      seq(|list|, k requires 0 <= k < |list| reads this => list[k].entry)
    }

    method Append(cmd: Cmd)
      requires cmd !in list
      modifies this`list, cmd`group
      ensures list == old(list) + [cmd] && cmd.group == group
    {
      cmd.group := group;
      list := list + [cmd];
    }

    method AppendAll(from: CmdList)
      requires from != this && forall c :: c in from.list ==> c !in list
      modifies this`list, from`list, from.list
      ensures list == old(list) + old(from.list) && from.list == []
      ensures Groups() == old(Groups()) + Constant(|old(from.list)|, group)
    {
      var k := 0;
      while k < |from.list|
        invariant 0 <= k <= |from.list|
        invariant list == old(list) && from.list == old(from.list)
        invariant forall j :: 0 <= j < k ==> from.list[j].group == group
        invariant forall c :: c in list ==> c.group == old(c.group)
      {
        from.list[k].group := group;
        k := k + 1;
      }
      list, from.list := list + from.list, [];
    }
  }

  /** The next group number for a new command list. */
  class GroupCounter {
    var next: nat

    ghost predicate Valid()
      reads this
    {
      next < UINT_RANGE
    }

    constructor ()
      ensures Valid() && next == 1
    {
      next := 1;
    }

    method Take() returns (g: nat)
      requires Valid()
      modifies this
      ensures Valid() && g == old(next) && next == (old(next) + 1) % UINT_RANGE
    {
      g := next;
      next := (next + 1) % UINT_RANGE;
    }

    method NewList() returns (l: CmdList)
      requires Valid()
      modifies this
      ensures Valid() && fresh(l) && l.list == [] && l.references == 1
      ensures l.group == old(next) && next == (old(next) + 1) % UINT_RANGE
    {
      var g := Take();
      l := new CmdList(g);
    }

    method Move(l: CmdList, from: CmdList)
      requires Valid() && l != from
      modifies this, l`list, l`group, from`list
      ensures Valid() && l.list == old(l.list) + old(from.list) && from.list == []
      ensures l.Groups() == old(l.Groups()) + old(from.Groups())
      ensures l.group == old(next) && next == (old(next) + 1) % UINT_RANGE
    {
      l.list, from.list := l.list + from.list, [];
      l.group := Take();
    }

    /** One round of Copy: take a new group when the source changes group, and append a copy. */
    method CopyOne(n: CmdList, cmd: Cmd, group: nat) returns (last: nat, copy: Cmd)
      requires Valid()
      modifies this, n`list, n`group
      ensures Valid() && fresh(copy) && n.list == old(n.list) + [copy]
      ensures copy.entry == cmd.entry && copy.group == n.group && last == cmd.group
      ensures cmd.group != group ==> n.group == old(next) && next == (old(next) + 1) % UINT_RANGE
      ensures cmd.group == group ==> n.group == old(n.group) && next == old(next)
    {
      last := group;
      if cmd.group != group {
        n.group := Take();
        last := cmd.group;
      }
      copy := new Cmd(cmd.entry);
      n.Append(copy);
    }

    /** The copy has the same commands, with the groups that CopyGroups describes. */
    method Copy(l: CmdList) returns (n: CmdList)
      requires Valid()
      modifies this
      ensures Valid() && fresh(n) && fresh(n.list) && n.references == 1
      ensures n.Entries() == l.Entries()
      ensures var c := CopyGroups(l.Groups(), l.group, old(next));
        n.Groups() == c.out && n.group == c.group && next == c.next
    {
      hide CopyGroups;
      var group := l.group;
      ghost var gs, start := l.Groups(), next;
      NothingCopied(l.group, start);
      n := NewList();
      ghost var c := CopyGroups([], l.group, start);
      var k := 0;
      while k < |l.list|
        invariant 0 <= k <= |l.list| && |n.list| == k && |c.out| == k
        invariant Valid() && fresh(n) && n.references == 1
        invariant fresh(n.list)
        invariant forall j :: 0 <= j < k ==> n.list[j].entry == l.list[j].entry && n.list[j].group == c.out[j]
        invariant c == CopyGroups(gs[..k], l.group, start)
        invariant group == c.last && n.group == c.group && next == c.next
      {
        OneMoreCopied(gs, l.group, start, k);
        var copy;
        group, copy := CopyOne(n, l.list[k], group);
        c := CopyGroups(gs[..k + 1], l.group, start);
        k := k + 1;
      }
      assert gs[..k] == gs;
    }
  }

  // ----- group numbers of a copy -----

  /** The state of a copy: groups given out, the source group last seen, the group now in use, and
      the counter. */
  datatype Copying = Copying(out: seq<nat>, last: nat, group: nat, next: nat)

  function CopyGroups(gs: seq<nat>, start: nat, next: nat): Copying {
    if |gs| == 0 then Copying([], start, next, (next + 1) % UINT_RANGE)
    else
      var c, g := CopyGroups(gs[..|gs| - 1], start, next), gs[|gs| - 1];
      if g != c.last then Copying(c.out + [c.next], g, c.next, (c.next + 1) % UINT_RANGE)
      else Copying(c.out + [c.group], g, c.group, c.next)
  }

  lemma NothingCopied(start: nat, next: nat)
    ensures CopyGroups([], start, next) == Copying([], start, next, (next + 1) % UINT_RANGE)
  {
  }

  lemma OneMoreCopied(gs: seq<nat>, start: nat, next: nat, k: nat)
    requires k < |gs|
    ensures var c := CopyGroups(gs[..k], start, next);
      CopyGroups(gs[..k + 1], start, next) ==
        if gs[k] != c.last then Copying(c.out + [c.next], gs[k], c.next, (c.next + 1) % UINT_RANGE)
        else Copying(c.out + [c.group], gs[k], c.group, c.next)
  {
    assert gs[..k + 1][..k] == gs[..k];
  }

  /** How many group numbers a copy takes: one, and one more at each change of group. */
  function CopyTakes(gs: seq<nat>, start: nat): (n: nat)
    ensures n >= 1
  {
    if |gs| == 0 then 1
    else CopyTakes(gs[..|gs| - 1], start) + if gs[|gs| - 1] != (if |gs| == 1 then start else gs[|gs| - 2]) then 1 else 0
  }

  /** Equal groups are next to each other. */
  ghost predicate Contiguous(gs: seq<nat>) {
    forall i, j, k :: 0 <= i < j < k < |gs| && gs[i] == gs[k] ==> gs[j] == gs[i]
  }

  /** The later positions an error at position i cancels. */
  ghost function Cancelled(gs: seq<nat>, i: nat): set<nat>
    requires i < |gs|
  {
    set j: nat | i < j < |gs| && gs[j] == gs[i] && gs[i] != 0
  }

  ghost predicate AllSame(gs: seq<nat>, i: nat, j: nat)
    requires i <= j < |gs|
  {
    forall k :: i <= k <= j ==> gs[k] == gs[i]
  }

  /** The numbers of a copy, by counting. */
  lemma {:induction false} CopyCounts(gs: seq<nat>, start: nat, next: nat)
    requires 0 < next && next + CopyTakes(gs, start) <= UINT_RANGE
    ensures var c, n := CopyGroups(gs, start, next), next + CopyTakes(gs, start);
      && |c.out| == |gs| && c.group == n - 1 && c.next == n % UINT_RANGE
      && c.last == (if |gs| > 0 then gs[|gs| - 1] else start)
      && (|gs| > 0 ==> c.group == c.out[|gs| - 1])
      && (forall k :: 0 <= k < |gs| ==> next <= c.out[k] <= c.group)
  {
    if |gs| > 0 {
      CopyCounts(gs[..|gs| - 1], start, next);
    }
  }

  /** The groups of a copy are new numbers, and two positions share one exactly when the source does
      not change group anywhere between them. */
  lemma {:induction false} CopyNumbersBlocks(gs: seq<nat>, start: nat, next: nat)
    requires 0 < next && next + CopyTakes(gs, start) <= UINT_RANGE
    ensures var c := CopyGroups(gs, start, next);
      && |c.out| == |gs| && (forall k :: 0 <= k < |gs| ==> next <= c.out[k] < next + CopyTakes(gs, start))
      && (forall i, j :: 0 <= i <= j < |gs| ==> (c.out[i] == c.out[j] <==> AllSame(gs, i, j)))
  {
    hide CopyGroups, CopyTakes, AllSame;
    CopyCounts(gs, start, next);
    if |gs| > 0 {
      var n := |gs| - 1;
      TakesGrow(gs, start);
      CopyNumbersBlocks(gs[..n], start, next);
      CopyCounts(gs[..n], start, next);
      OneMoreCopied(gs, start, next, n);
      assert gs[..n + 1] == gs;
      var c, d := CopyGroups(gs[..n], start, next), CopyGroups(gs, start, next);
      forall i, j | 0 <= i <= j < |gs|
        ensures d.out[i] == d.out[j] <==> AllSame(gs, i, j)
      {
        SameInFront(gs, i, j);
        if i < j == n {
          assert c.out[i] == c.out[n - 1] <==> AllSame(gs[..n], i, n - 1);
          assert gs[n] != gs[n - 1] ==> c.out[i] < d.out[n];
        }
      }
    }
  }

  lemma TakesGrow(gs: seq<nat>, start: nat)
    requires |gs| > 0
    ensures CopyTakes(gs[..|gs| - 1], start) <= CopyTakes(gs, start)
  {
  }

  lemma SameInFront(gs: seq<nat>, i: nat, j: nat)
    requires i <= j < |gs|
    ensures var n := |gs| - 1;
      && (j < n ==> (AllSame(gs, i, j) <==> AllSame(gs[..n], i, j)))
      && (i < j == n ==> (AllSame(gs, i, j) <==> AllSame(gs[..n], i, n - 1) && gs[n] == gs[n - 1]))
      && (i == j ==> AllSame(gs, i, j))
  {
    var n := |gs| - 1;
    assert forall k :: 0 <= k < n ==> gs[..n][k] == gs[k];
    if i < j == n && AllSame(gs[..n], i, n - 1) {
      assert gs[..n][n - 1] == gs[..n][i];
    }
  }

  /** An error at any position of the copy cancels the same positions as in the original if and only
      if the original's groups are contiguous. */
  lemma CopyCancelsAlike(gs: seq<nat>, start: nat, next: nat)
    requires 0 < next && next + CopyTakes(gs, start) <= UINT_RANGE
    requires forall k :: 0 <= k < |gs| ==> 0 < gs[k]
    ensures |CopyGroups(gs, start, next).out| == |gs|
    ensures (forall i: nat :: i < |gs| ==> Cancelled(CopyGroups(gs, start, next).out, i) == Cancelled(gs, i))
      <==> Contiguous(gs)
  {
    CopyNumbersBlocks(gs, start, next);
    var out := CopyGroups(gs, start, next).out;
    if Contiguous(gs) {
      forall i: nat, j: nat | i < j < |gs|
        ensures j in Cancelled(out, i) <==> j in Cancelled(gs, i)
      {
        assert out[i] == out[j] <==> AllSame(gs, i, j);
      }
    } else {
      var i, j, k :| 0 <= i < j < k < |gs| && gs[i] == gs[k] && gs[j] != gs[i];
      assert k in Cancelled(gs, i) && !AllSame(gs, i, k);
      assert k !in Cancelled(out, i);
    }
  }
}
