/** The lists that can be built with the operations on command lists, as a state machine on values. */
module CmdListRuns {
  import opened Common
  import opened WaitChannelSpec
  import opened CmdLists

  /** A list by its groups and current group. */
  datatype Listed = Listed(groups: seq<nat>, group: nat)

  /** The lists there are, and how many numbers were taken, counting from 1: the counter wraps behind
      the last number. */
  datatype Lists = Lists(live: map<nat, Listed>, next: nat)

  /** A list that was appended or moved to another is freed. */
  datatype ListStep =
    | New(id: nat)
    | Append(id: nat)
    | AppendAll(id: nat, from: nat)
    | Move(id: nat, from: nat)
    | CopyTo(id: nat, from: nat)
    | Free(id: nat)

  ghost predicate Enabled(s: Lists, st: ListStep) {
    match st
    case New(id) => id !in s.live
    case Append(id) => id in s.live
    case AppendAll(id, from) => id in s.live && from in s.live && id != from
    case Move(id, from) => id in s.live && from in s.live && id != from
    case CopyTo(id, from) => id !in s.live && from in s.live
    case Free(id) => id in s.live
  }

  ghost function Apply(s: Lists, st: ListStep): Lists
    requires Enabled(s, st)
  {
    match st
    case New(id) => Lists(s.live[id := Listed([], s.next % UINT_RANGE)], s.next + 1)
    case Append(id) =>
      var l := s.live[id];
      s.(live := s.live[id := l.(groups := l.groups + [l.group])])
    case AppendAll(id, from) =>
      var l := s.live[id];
      s.(live := s.live[id := l.(groups := l.groups + Constant(|s.live[from].groups|, l.group))] - {from})
    case Move(id, from) =>
      Lists(s.live[id := Listed(s.live[id].groups + s.live[from].groups, s.next % UINT_RANGE)] - {from}, s.next + 1)
    case CopyTo(id, from) =>
      var l := s.live[from];
      var c := CopyGroups(l.groups, l.group, s.next % UINT_RANGE);
      Lists(s.live[id := Listed(c.out, c.group)], s.next + CopyTakes(l.groups, l.group))
    case Free(id) => s.(live := s.live - {id})
  }

  /** Contiguous groups, of which only the last can be the current one. */
  ghost predicate WellGrouped(l: Listed) {
    Contiguous(l.groups) && (l.group in l.groups ==> l.groups[|l.groups| - 1] == l.group)
  }

  ghost function Numbers(l: Listed): set<nat> {
    Elements(l.groups) + {l.group}
  }

  /** All lists are well grouped, with numbers that were taken and that no two lists share. */
  ghost predicate GroupsOk(s: Lists) {
    && (forall i :: i in s.live ==> WellGrouped(s.live[i]) && forall x :: x in Numbers(s.live[i]) ==> 0 < x < s.next)
    && (forall i, j :: i in s.live && j in s.live && i != j ==> Numbers(s.live[i]) !! Numbers(s.live[j]))
  }

  lemma AppendKeepsGrouping(l: Listed, count: nat)
    requires WellGrouped(l)
    ensures var n := l.(groups := l.groups + Constant(count, l.group)); WellGrouped(n) && Numbers(n) == Numbers(l)
  {
    var gs, hs := l.groups, l.groups + Constant(count, l.group);
    forall i, j, k | 0 <= i < j < k < |hs| && hs[i] == hs[k]
      ensures hs[j] == hs[i]
    {
      if j < |gs| <= k {
        assert l.group in gs;
      }
    }
    assert forall x :: x in gs ==> x in hs;
  }

  lemma MoveKeepsGrouping(l: Listed, from: Listed, g: nat)
    requires WellGrouped(l) && WellGrouped(from) && Numbers(l) !! Numbers(from)
    requires g !in Numbers(l) + Numbers(from)
    ensures var n := Listed(l.groups + from.groups, g); WellGrouped(n) && Numbers(n) <= Numbers(l) + Numbers(from) + {g}
  {
    var hs := l.groups + from.groups;
    forall i, j, k | 0 <= i < j < k < |hs| && hs[i] == hs[k]
      ensures hs[j] == hs[i]
    {
      if i < |l.groups| {
        assert hs[i] in Numbers(l);
      }
      if k >= |l.groups| {
        assert hs[k] in Numbers(from);
      }
    }
  }

  lemma CopyIsGrouped(l: Listed, next: nat)
    requires 0 < next && next + CopyTakes(l.groups, l.group) <= UINT_RANGE
    ensures var c := CopyGroups(l.groups, l.group, next); var n := Listed(c.out, c.group);
      WellGrouped(n) && forall x :: x in Numbers(n) ==> next <= x < next + CopyTakes(l.groups, l.group)
  {
    CopyNumbersBlocks(l.groups, l.group, next);
    CopyCounts(l.groups, l.group, next);
    var out := CopyGroups(l.groups, l.group, next).out;
    forall i, j, k | 0 <= i < j < k < |out| && out[i] == out[k]
      ensures out[j] == out[i]
    {
      assert AllSame(l.groups, i, k) && AllSame(l.groups, i, j);
    }
  }

  /** One list is replaced, another goes. */
  lemma Replaced(s: Lists, id: nat, l: Listed, next: nat, gone: set<nat>)
    requires GroupsOk(s) && s.next <= next && WellGrouped(l)
    requires forall x :: x in Numbers(l) ==> 0 < x < next
    requires forall i :: i in s.live && i != id && i !in gone ==> Numbers(s.live[i]) !! Numbers(l)
    requires id !in gone
    ensures GroupsOk(Lists(s.live[id := l] - gone, next))
  {
    hide WellGrouped, Numbers;
  }

  lemma AppendKeepsGroups(s: Lists, id: nat, count: nat, gone: set<nat>)
    requires GroupsOk(s) && id in s.live && id !in gone
    ensures var l := s.live[id];
      GroupsOk(s.(live := s.live[id := l.(groups := l.groups + Constant(count, l.group))] - gone))
  {
    hide WellGrouped, Numbers, Constant;
    var l := s.live[id];
    AppendKeepsGrouping(l, count);
    Replaced(s, id, l.(groups := l.groups + Constant(count, l.group)), s.next, gone);
  }

  lemma MoveKeepsGroups(s: Lists, id: nat, from: nat)
    requires GroupsOk(s) && id in s.live && from in s.live && id != from && 0 < s.next
    ensures var l := Listed(s.live[id].groups + s.live[from].groups, s.next);
      GroupsOk(Lists(s.live[id := l] - {from}, s.next + 1))
  {
    hide WellGrouped, Numbers;
    MoveKeepsGrouping(s.live[id], s.live[from], s.next);
    Replaced(s, id, Listed(s.live[id].groups + s.live[from].groups, s.next), s.next + 1, {from});
  }

  lemma NewKeepsGroups(s: Lists, id: nat, l: Listed, next: nat)
    requires GroupsOk(s) && 0 < s.next <= next && id !in s.live
    requires WellGrouped(l) && forall x :: x in Numbers(l) ==> s.next <= x < next
    ensures GroupsOk(Lists(s.live[id := l], next))
  {
    hide WellGrouped, Numbers;
    Replaced(s, id, l, next, {});
    assert s.live[id := l] - {} == s.live[id := l];
  }

  lemma StepKeepsGroups(s: Lists, st: ListStep)
    requires GroupsOk(s) && Enabled(s, st) && 0 < s.next && Apply(s, st).next <= UINT_RANGE
    ensures GroupsOk(Apply(s, st))
  {
    hide GroupsOk, CopyGroups, CopyTakes, Constant, Contiguous, Numbers;
    match st
    case New(id) =>
      EmptyIsGrouped(s.next);
      NewKeepsGroups(s, id, Listed([], s.next), s.next + 1);
    case Append(id) =>
      AppendKeepsGroups(s, id, 1, {});
      AppendOne(s.live[id].groups, s.live[id].group);
      assert Apply(s, st).live - {} == Apply(s, st).live;
    case AppendAll(id, from) =>
      AppendKeepsGroups(s, id, |s.live[from].groups|, {from});
    case Move(id, from) =>
      MoveKeepsGroups(s, id, from);
    case CopyTo(id, from) =>
      CopyKeepsGroups(s, id, from);
    case Free(id) =>
      FreeKeepsGroups(s, id);
  }

  lemma AppendOne(gs: seq<nat>, g: nat)
    ensures gs + [g] == gs + Constant(1, g)
  {
  }

  lemma CopyKeepsGroups(s: Lists, id: nat, from: nat)
    requires GroupsOk(s) && id !in s.live && from in s.live && 0 < s.next
    requires s.next + CopyTakes(s.live[from].groups, s.live[from].group) <= UINT_RANGE
    ensures GroupsOk(Apply(s, CopyTo(id, from)))
  {
    hide GroupsOk, CopyGroups, CopyTakes, Contiguous, Numbers;
    CopyIsGrouped(s.live[from], s.next);
    NewKeepsGroups(s, id, Apply(s, CopyTo(id, from)).live[id], Apply(s, CopyTo(id, from)).next);
  }

  lemma FreeKeepsGroups(s: Lists, id: nat)
    requires GroupsOk(s)
    ensures GroupsOk(s.(live := s.live - {id}))
  {
    hide WellGrouped, Numbers;
  }

  lemma EmptyIsGrouped(g: nat)
    ensures WellGrouped(Listed([], g)) && Numbers(Listed([], g)) == {g}
  {
  }

  ghost predicate IsRun(s: Lists, steps: seq<ListStep>)
    decreases |steps|
  {
    |steps| > 0 ==> Enabled(s, steps[0]) && IsRun(Apply(s, steps[0]), steps[1..])
  }

  ghost function RunOf(s: Lists, steps: seq<ListStep>): Lists
    requires IsRun(s, steps)
    decreases |steps|
  {
    if |steps| == 0 then s else RunOf(Apply(s, steps[0]), steps[1..])
  }

  lemma {:induction false} RunKeepsGroups(s: Lists, steps: seq<ListStep>)
    requires GroupsOk(s) && 0 < s.next && IsRun(s, steps)
    ensures s.next <= RunOf(s, steps).next
    ensures RunOf(s, steps).next <= UINT_RANGE ==> GroupsOk(RunOf(s, steps))
    decreases |steps|
  {
    hide GroupsOk, Enabled;
    if |steps| > 0 {
      var t := Apply(s, steps[0]);
      if t.next <= UINT_RANGE {
        StepKeepsGroups(s, steps[0]);
        RunKeepsGroups(t, steps[1..]);
      } else {
        RunCounts(t, steps[1..]);
      }
    }
  }

  lemma {:induction false} RunCounts(s: Lists, steps: seq<ListStep>)
    requires IsRun(s, steps)
    ensures s.next <= RunOf(s, steps).next
    decreases |steps|
  {
    if |steps| > 0 {
      RunCounts(Apply(s, steps[0]), steps[1..]);
    }
  }

  /** Whatever lists are built from new ones by append, append-all, move and copy, as long as a list
      that was emptied is freed and the counter has not wrapped: the groups of every list are contiguous,
      and an error at any position of a copy cancels the same positions as in the list. */
  lemma BuiltListsCopyAlike(steps: seq<ListStep>, id: nat)
    requires IsRun(Lists(map[], 1), steps) && id in RunOf(Lists(map[], 1), steps).live
    ensures var s := RunOf(Lists(map[], 1), steps);
      var l := s.live[id];
      s.next + CopyTakes(l.groups, l.group) <= UINT_RANGE ==>
        && Contiguous(l.groups) && |CopyGroups(l.groups, l.group, s.next).out| == |l.groups|
        && forall i: nat :: i < |l.groups| ==>
          Cancelled(CopyGroups(l.groups, l.group, s.next).out, i) == Cancelled(l.groups, i)
  {
    hide IsRun, RunOf, Cancelled, Contiguous;
    var s := RunOf(Lists(map[], 1), steps);
    RunKeepsGroups(Lists(map[], 1), steps);
    var l := s.live[id];
    if s.next + CopyTakes(l.groups, l.group) <= UINT_RANGE {
      assert forall k :: 0 <= k < |l.groups| ==> l.groups[k] in Numbers(l);
      CopyCancelsAlike(l.groups, l.group, s.next);
    }
  }

  method FillAndMove(numbers: GroupCounter, l: CmdList, from: CmdList, cmd: Cmd)
    requires numbers.Valid() && l != from && from.list == []
    modifies numbers, l`list, l`group, from`list, cmd`group
    ensures numbers.Valid() && l.list == old(l.list) + [cmd] && from.list == [] && cmd.group == from.group
    ensures l.group == old(numbers.next) && numbers.next == (old(numbers.next) + 1) % UINT_RANGE
  {
    from.Append(cmd);
    numbers.Move(l, from);
  }

  /** A list that is filled and moved again: moving has emptied it, but it keeps its group. No caller
      does this. */
  method ReuseList(numbers: GroupCounter, l: CmdList, a: CmdList, b: CmdList, first: Cmd, second: Cmd, third: Cmd)
    requires numbers.Valid() && l.list == [] && a.list == [] && b.list == []
    requires l != a && l != b && a != b && first != second && first != third && second != third
    modifies numbers, l`list, l`group, a`list, b`list, first`group, second`group, third`group
    ensures l.Groups() == [a.group, b.group, a.group]
  {
    FillAndMove(numbers, l, a, first);
    FillAndMove(numbers, l, b, second);
    FillAndMove(numbers, l, a, third);
    ThreeGroups(l, first, second, third);
  }

  lemma ThreeGroups(l: CmdList, a: Cmd, b: Cmd, c: Cmd)
    requires l.list == [a, b, c]
    ensures l.Groups() == [a.group, b.group, c.group]
  {
    assert l.list[0] == a && l.list[1] == b && l.list[2] == c;
  }

  /** A copy of such a list does not cancel what the list does. */
  lemma ReusedListBreaksCopy(a: nat, b: nat, start: nat, next: nat)
    requires 0 < a && a != b && 0 < next && next + 4 <= UINT_RANGE
    ensures var gs := [a, b, a];
      && !Contiguous(gs) && Cancelled(gs, 0) == {2}
      && |CopyGroups(gs, start, next).out| == 3 && Cancelled(CopyGroups(gs, start, next).out, 0) == {}
  {
    var gs: seq<nat> := [a, b, a];
    TakesAtMost(gs, start);
    CopyNumbersBlocks(gs, start, next);
    assert gs[0] == gs[2] && gs[1] != gs[0];
    assert !AllSame(gs, 0, 2) by { assert gs[1] != gs[0]; }
    assert !AllSame(gs, 0, 1) by { assert gs[1] != gs[0]; }
  }

  lemma {:induction false} TakesAtMost(gs: seq<nat>, start: nat)
    ensures CopyTakes(gs, start) <= |gs| + 1
  {
    if |gs| > 0 {
      TakesAtMost(gs[..|gs| - 1], start);
    }
  }
}
