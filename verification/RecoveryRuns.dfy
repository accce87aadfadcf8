/** Runs of the recovery commands that show where windows come back, and what is not promised. */
module RecoveryRuns {
  import opened Common
  import opened Winlinks
  import opened RecoveryState

  lemma RunIs(ls: seq<Link>, p: nat, n: nat, idx: int)
    requires p + n <= |ls| && (forall k :: p <= k < p + n ==> ls[k].idx == idx + (k - p))
    requires p + n < |ls| ==> ls[p + n].idx != idx + n
    ensures Run(ls, p, idx) == n
  {
    hide Run;
  }

  lemma AddedFirstIs(ls: seq<Link>, f: nat, w: nat)
    requires f <= |ls| && f <= INT_MAX && (forall k :: 0 <= k < f ==> ls[k].idx == k) && (f < |ls| ==> ls[f].idx > f)
    ensures AddedFirst(ls, w) == Some(ls[..f] + [Link(f, w)] + ls[f..])
    ensures Below(ls, Free(ls, 0)) == f
  {
    hide Below, Run;
    BelowIs(ls, 0, 0);
    RunIs(ls, 0, f, 0);
    BelowIs(ls, f, f);
  }

  lemma AddedAtIs(ls: seq<Link>, p: nat, n: nat, idx: nat, w: nat)
    requires p + n <= |ls| && idx + n < INT_MAX && (forall k :: 0 <= k < p ==> ls[k].idx < idx)
    requires forall k :: p <= k < p + n ==> ls[k].idx == idx + (k - p)
    requires p + n < |ls| ==> ls[p + n].idx > idx + n
    ensures AddedAt(ls, idx, w) == Some(ls[..p] + [Link(idx, w)] + Up(ls[p..p + n]) + ls[p + n..])
  {
    hide Below, Run, Up, Inserted, Shifted;
    var u := Up(ls[p..p + n]);
    var r := ls[..p] + u + ls[p + n..];
    ShiftedIs(ls, p, n, idx);
    assert n > 0 ==> u[0].idx == idx + 1;
    BelowIs(r, idx, p);
    InsertedIs(r, p, idx, w);
    Parts(ls[..p], u, ls[p + n..], Link(idx, w));
  }

  lemma ShiftedIs(ls: seq<Link>, p: nat, n: nat, idx: nat)
    requires p + n <= |ls| && (forall k :: 0 <= k < p ==> ls[k].idx < idx)
    requires forall k :: p <= k < p + n ==> ls[k].idx == idx + (k - p)
    requires p + n < |ls| ==> ls[p + n].idx > idx + n
    ensures Free(ls, idx) == idx + n && Shifted(ls, idx) == ls[..p] + Up(ls[p..p + n]) + ls[p + n..]
  {
    hide Below, Run, Up;
    BelowIs(ls, idx, p);
    RunIs(ls, p, n, idx);
  }

  lemma InsertedIs(ls: seq<Link>, p: nat, idx: nat, w: nat)
    requires p <= |ls| && Below(ls, idx) == p
    ensures Inserted(ls, idx, w) == ls[..p] + [Link(idx, w)] + ls[p..]
  {
  }

  lemma Parts<T>(a: seq<T>, b: seq<T>, c: seq<T>, x: T)
    ensures (a + b + c)[..|a|] + [x] + (a + b + c)[|a|..] == a + [x] + b + c
  {
  }

  ghost function Idle(ls: seq<Link>): State {
    State([], [], 0, 0, map[0 := ls], None, 1, 0, [], [], [])
  }

  lemma IdleIsStart(ls: seq<Link>)
    requires Sorted(ls) && Once(ls)
    ensures IsStart(Idle(ls))
  {
  }

  // ----- a window that comes back in front of an older one -----

  ghost function KeptLast(): State {
    var item := Closed(1, 0, 2, 7, 2, Some(9), None, 1);
    State([item], [], 1, 1, map[0 := [Link(5, 1), Link(6, 9)], 1 := [Link(0, 2)]], Some(1), 2, 1, [item], [], [])
  }

  lemma LastIsKept()
    ensures DoDelete(Idle([Link(5, 1), Link(6, 9), Link(7, 2)]), 0, 2, false) == Outcome(KeptLast(), Normal)
  {
    hide AddedFirst, Free, Below;
    var ls := [Link(5, 1), Link(6, 9), Link(7, 2)];
    AddedFirstIs([], 0, 2);
    assert [][..0] + [Link(0, 2)] + [][0..] == [Link(0, 2)];
    assert Removed(ls, 2) == [Link(5, 1), Link(6, 9)];
    assert ItemFor(1, 0, ls, 2, 1) == KeptLast().closed[0];
  }

  ghost function MiddleKilled(): State {
    KeptLast().(sessions := map[0 := [Link(5, 1)], 1 := [Link(0, 2)]])
  }

  lemma MiddleIsKilled()
    ensures DoDelete(KeptLast(), 0, 1, true) == Outcome(MiddleKilled(), Normal)
  {
    assert Removed([Link(5, 1), Link(6, 9)], 1) == [Link(5, 1)];
  }

  lemma ComesFirst()
    ensures var t := DoReopen(MiddleKilled(), None).state; 0 in t.sessions && t.sessions[0] == [Link(0, 2), Link(5, 1)]
  {
    hide AddedFirst, AddedAt, Free, Below;
    var ls, item := [Link(5, 1)], KeptLast().closed[0];
    AddedFirstIs(ls, 0, 2);
    assert ls[..0] + [Link(0, 2)] + ls[0..] == [Link(0, 2), Link(5, 1)];
    LinkedWindows(ls, 9);
    assert 9 !in Windows(ls);
    assert Attached(ls, item) == Some([Link(0, 2), Link(5, 1)]);
  }

  /** Of three windows the last is deleted, then the middle one is killed. The last comes back as the first. */
  lemma MayComeBackFirst()
    ensures var s := Idle([Link(5, 1), Link(6, 9), Link(7, 2)]);
      var steps := [Delete(0, 2, false), Delete(0, 1, true), Reopen(None)];
      && IsStart(s) && IsRun(s, steps) && 0 in RunOf(s, steps).sessions && Order(RunOf(s, steps).sessions[0]) == [2, 1]
  {
    hide IsStart, IsRun, RunOf, Enabled, Apply, KeptLast, MiddleKilled, DoReopen;
    var ls := [Link(5, 1), Link(6, 9), Link(7, 2)];
    IdleIsStart(ls);
    KeptThenKilled();
    ComesFirst();
    RunOfThree(Idle(ls), Delete(0, 2, false), Delete(0, 1, true), Reopen(None), KeptLast(), MiddleKilled());
    ReopenedLast();
    TwoInOrder();
  }

  lemma TwoInOrder()
    ensures Order([Link(0, 2), Link(5, 1)]) == [2, 1]
  {
  }

  lemma KeptThenKilled()
    ensures var s := Idle([Link(5, 1), Link(6, 9), Link(7, 2)]);
      && Enabled(s, Delete(0, 2, false)) && Apply(s, Delete(0, 2, false)) == KeptLast()
      && Enabled(KeptLast(), Delete(0, 1, true)) && Apply(KeptLast(), Delete(0, 1, true)) == MiddleKilled()
  {
    hide DoDelete;
    LastIsKept();
    MiddleIsKilled();
  }

  lemma ReopenedLast()
    ensures var u, st := MiddleKilled(), Reopen(None); Enabled(u, st) && Apply(u, st) == DoReopen(u, None).state
  {
    hide DoReopen;
  }

  lemma RunOfThree(s: State, a: Step, b: Step, c: Step, t: State, u: State)
    requires Enabled(s, a) && Apply(s, a) == t && Enabled(t, b) && Apply(t, b) == u
    ensures Enabled(u, c) ==> IsRun(s, [a, b, c]) && RunOf(s, [a, b, c]) == Apply(u, c)
  {
    hide Enabled, Apply;
    if Enabled(u, c) {
      assert [c][1..] == [] && [b, c][1..] == [c] && [a, b, c][1..] == [b, c];
      RunStep(u, [c]);
      RunStep(t, [b, c]);
      RunStep(s, [a, b, c]);
    }
  }

  lemma RunStep(s: State, steps: seq<Step>)
    requires |steps| > 0 && Enabled(s, steps[0]) && IsRun(Apply(s, steps[0]), steps[1..])
    ensures IsRun(s, steps) && RunOf(s, steps) == RunOf(Apply(s, steps[0]), steps[1..])
  {
  }

  // ----- an item that outlives its recovery session -----

  ghost function ItemOf11(): Closed { Closed(1, 0, 11, 1, 1, Some(10), Some(12), 1) }
  ghost function ItemOf12(): Closed { Closed(2, 0, 12, 2, 1, Some(10), None, 1) }
  ghost function SecondOf12(): Closed { Closed(3, 1, 12, 1, 1, Some(11), None, 1) }

  ghost function Three(): seq<Link> { [Link(0, 10), Link(1, 11), Link(2, 12)] }

  /** The states of the run: one window deleted, two deleted, one of them deleted once more in the recovery
      session, the latest item reserved, the others reopened. */
  ghost function Loss(k: nat): State
    requires 1 <= k <= 6
  {
    var a, b, c := ItemOf11(), ItemOf12(), SecondOf12();
    if k == 1 then
      State([a], [], 1, 1, map[0 := [Link(0, 10), Link(2, 12)], 1 := [Link(0, 11)]], Some(1), 2, 1, [a], [], [])
    else if k == 2 then
      State([b, a], [], 2, 2, map[0 := [Link(0, 10)], 1 := [Link(0, 11), Link(1, 12)]], Some(1), 2, 2, [a, b], [], [])
    else if k == 3 then
      var sessions := map[0 := [Link(0, 10)], 1 := [Link(0, 11), Link(2, 12)]];
      State([c, b, a], [], 3, 3, sessions, Some(1), 2, 3, [a, b, c], [], [])
    else if k == 4 then Loss(3).(closed := [b, a], count := 2, reserved := [c])
    else if k == 5 then
      var sessions := map[0 := [Link(0, 10), Link(1, 12)], 1 := [Link(0, 11)]];
      State([a], [c], 1, 3, sessions, Some(1), 2, 3, [a, b, c], [b], [])
    else State([], [c], 0, 3, map[0 := Three()], None, 2, 3, [a, b, c], [b, a], [])
  }

  lemma Delete11()
    ensures DoDelete(Idle(Three()), 0, 1, false) == Outcome(Loss(1), Normal)
  {
    hide AddedFirst, Free, Below;
    AddedFirstIs([], 0, 11);
    assert [][..0] + [Link(0, 11)] + [][0..] == [Link(0, 11)];
    assert Removed(Three(), 1) == [Link(0, 10), Link(2, 12)];
    assert ItemFor(1, 0, Three(), 1, 1) == ItemOf11();
  }

  lemma Delete12()
    ensures DoDelete(Loss(1), 0, 1, false) == Outcome(Loss(2), Normal)
  {
    hide AddedFirst, Free, Below;
    var r, ls := [Link(0, 11)], [Link(0, 10), Link(2, 12)];
    AddedFirstIs(r, 1, 12);
    assert r[..1] + [Link(1, 12)] + r[1..] == [Link(0, 11), Link(1, 12)];
    assert Removed(ls, 1) == [Link(0, 10)];
    assert ItemFor(2, 0, ls, 1, 1) == ItemOf12();
  }

  lemma Delete12Again()
    ensures DoDelete(Loss(2), 1, 1, false) == Outcome(Loss(3), Normal)
  {
    hide AddedFirst, Free, Below;
    var r := [Link(0, 11), Link(1, 12)];
    AddedFirstIs(r, 2, 12);
    var r1 := [Link(0, 11), Link(1, 12), Link(2, 12)];
    assert r[..2] + [Link(2, 12)] + r[2..] == r1;
    assert Removed(r1, 1) == [Link(0, 11), Link(2, 12)];
    assert ItemFor(3, 1, r, 1, 1) == SecondOf12();
  }

  lemma Reopen12()
    ensures DoReopen(Loss(4), None) == Outcome(Loss(5), Normal)
  {
    hide AddedAt, Free, Below;
    var ls, r, item := [Link(0, 10)], [Link(0, 11), Link(2, 12)], ItemOf12();
    assert Position(ls, 10) == 0 && Position(r, 12) == 1;
    AddedAtIs(ls, 1, 0, 1, 12);
    var ls1 := [Link(0, 10), Link(1, 12)];
    assert ls[..1] + [Link(1, 12)] + Up(ls[1..1]) + ls[1..] == ls1;
    assert Attached(ls, item) == Some(ls1);
    assert Removed(r, 1) == [Link(0, 11)];
    assert Loss(4).closed[1..] == [ItemOf11()];
    assert Moved(Loss(4).sessions, 1, 1, 0, ls1, Place(ls, item)) == Loss(5).sessions;
  }

  lemma Reopen11()
    ensures DoReopen(Loss(5), None) == Outcome(Loss(6), Normal)
  {
    hide AddedAt, Free, Below;
    var ls, r, item := [Link(0, 10), Link(1, 12)], [Link(0, 11)], ItemOf11();
    assert Position(ls, 10) == 0 && Position(r, 11) == 0;
    AddedAtIs(ls, 1, 1, 1, 11);
    assert ls[..1] + [Link(1, 11)] + Up(ls[1..2]) + ls[2..] == Three();
    assert Attached(ls, item) == Some(Three());
    assert Removed(r, 0) == [];
    assert Loss(5).closed[1..] == [];
    assert Moved(Loss(5).sessions, 1, 0, 0, Three(), Place(ls, item)) - {1} == Loss(6).sessions;
  }

  ghost function LossSteps(): seq<Step> {
    [Delete(0, 1, false), Delete(0, 1, false), Delete(1, 1, false), Reserve, Reopen(None), Reopen(None)]
  }

  lemma LossStep(k: nat)
    requires 1 <= k <= 5
    ensures Enabled(Loss(k), LossSteps()[k]) && Apply(Loss(k), LossSteps()[k]) == Loss(k + 1)
  {
    hide DoDelete, DoReopen;
    if k == 1 { Delete12(); }
    if k == 2 { Delete12Again(); }
    if k == 3 { assert Loss(3).closed[1..] == [ItemOf12(), ItemOf11()]; }
    if k == 4 { Reopen12(); }
    if k == 5 { Reopen11(); }
  }

  lemma {:induction false} LossRun(k: nat)
    requires 1 <= k <= 6
    ensures IsRun(Loss(k), LossSteps()[k..]) && RunOf(Loss(k), LossSteps()[k..]) == Loss(6)
    decreases 6 - k
  {
    hide Loss, Enabled, Apply;
    if k < 6 {
      LossStep(k);
      LossRun(k + 1);
      assert LossSteps()[k..][1..] == LossSteps()[k + 1..];
      RunStep(Loss(k), LossSteps()[k..]);
    } else {
      assert LossSteps()[6..] == [];
    }
  }

  /** A window that is deleted once more in the recovery session has two items. When it is reopened by the
      older one, the recovery session can become empty and be destroyed while the other is still reserved. */
  lemma DeletedTwiceIsLost()
    ensures IsStart(Idle(Three())) && IsRun(Idle(Three()), LossSteps())
    ensures !NeverBreaks(Idle(Three()), LossSteps())
    ensures var t := RunOf(Idle(Three()), LossSteps());
      && InLists(t, SecondOf12()) && t.recovery == None && SecondOf12().recovery !in t.sessions
      && t.sessions == map[0 := Three()]
  {
    hide Apply, IsRun, RunOf, NeverBreaks, Enabled, IsStart, Loss, Idle;
    IdleIsStart(Three());
    FirstLoss();
    LossRun(1);
    RunStep(Idle(Three()), LossSteps());
    BreaksThird();
    LastLoss();
  }

  lemma LastLoss()
    ensures InLists(Loss(6), SecondOf12()) && Loss(6).recovery == None && Loss(6).sessions == map[0 := Three()]
  {
  }

  lemma FirstLoss()
    ensures Enabled(Idle(Three()), LossSteps()[0]) && Apply(Idle(Three()), LossSteps()[0]) == Loss(1)
  {
    hide DoDelete;
    Delete11();
  }

  lemma BreaksThird()
    requires IsRun(Idle(Three()), LossSteps())
    ensures !NeverBreaks(Idle(Three()), LossSteps())
  {
    hide Apply, Loss, Breaks, Enabled;
    FirstLoss();
    LossStep(1);
    ThirdBreaks();
    assert LossSteps()[1..][1..][0] == LossSteps()[2];
    assert LossSteps()[1..][0] == LossSteps()[1];
    StepNeverBreaks(Idle(Three()), LossSteps());
    StepNeverBreaks(Loss(1), LossSteps()[1..]);
  }

  lemma StepNeverBreaks(s: State, steps: seq<Step>)
    requires |steps| > 0 && IsRun(s, steps)
    ensures IsRun(Apply(s, steps[0]), steps[1..])
    ensures NeverBreaks(s, steps) ==> !Breaks(s, steps[0]) && NeverBreaks(Apply(s, steps[0]), steps[1..])
  {
  }

  lemma ThirdBreaks()
    ensures Enabled(Loss(2), LossSteps()[2]) && Breaks(Loss(2), LossSteps()[2])
  {
    hide Free;
    AddedFirstIs([Link(0, 11), Link(1, 12)], 2, 12);
    RoomToAdd([Link(0, 11), Link(1, 12)], 12);
  }

  // ----- an item that is claimed out of order -----

  ghost function ItemOfA(): Closed { Closed(1, 0, 1, 0, 0, None, Some(2), 1) }
  ghost function ItemOfB(): Closed { Closed(2, 0, 2, 1, 0, None, Some(3), 1) }

  ghost function Four(): seq<Link> { [Link(0, 1), Link(1, 2), Link(2, 3), Link(3, 4)] }

  /** The states of the run: two windows deleted, both items reserved, the first claimed. */
  ghost function Claiming(k: nat): State
    requires 1 <= k <= 5
  {
    var a, b := ItemOfA(), ItemOfB();
    if k == 1 then
      var sessions := map[0 := [Link(1, 2), Link(2, 3), Link(3, 4)], 1 := [Link(0, 1)]];
      State([a], [], 1, 1, sessions, Some(1), 2, 1, [a], [], [])
    else if k == 2 then
      State([b, a], [], 2, 2, map[0 := [Link(2, 3), Link(3, 4)], 1 := [Link(0, 1), Link(1, 2)]], Some(1), 2, 2,
        [a, b], [], [])
    else if k == 3 then Claiming(2).(closed := [a], count := 1, reserved := [b])
    else if k == 4 then Claiming(2).(closed := [], count := 0, reserved := [b, a])
    else
      Claiming(2).(closed := [], count := 0, reserved := [b], restored := [a],
        sessions := map[0 := [Link(2, 1), Link(3, 3), Link(4, 4)], 1 := [Link(1, 2)]])
  }

  ghost function ClaimingSteps(): seq<Step> {
    [Delete(0, 0, false), Delete(0, 0, false), Reserve, Reserve, Claim(1, None)]
  }

  lemma DeleteA()
    ensures DoDelete(Idle(Four()), 0, 0, false) == Outcome(Claiming(1), Normal)
  {
    hide AddedFirst, Free, Below;
    AddedFirstIs([], 0, 1);
    assert [][..0] + [Link(0, 1)] + [][0..] == [Link(0, 1)];
    assert Removed(Four(), 0) == [Link(1, 2), Link(2, 3), Link(3, 4)];
    assert ItemFor(1, 0, Four(), 0, 1) == ItemOfA();
  }

  lemma DeleteB()
    ensures DoDelete(Claiming(1), 0, 0, false) == Outcome(Claiming(2), Normal)
  {
    hide AddedFirst, Free, Below;
    var r, ls := [Link(0, 1)], [Link(1, 2), Link(2, 3), Link(3, 4)];
    AddedFirstIs(r, 1, 2);
    assert r[..1] + [Link(1, 2)] + r[1..] == [Link(0, 1), Link(1, 2)];
    assert Removed(ls, 0) == [Link(2, 3), Link(3, 4)];
    assert ItemFor(2, 0, ls, 0, 1) == ItemOfB();
  }

  lemma ClaimA()
    ensures DoClaim(Claiming(4), 1, None) == Outcome(Claiming(5), Normal)
  {
    hide AddedAt, Free, Below;
    var ls, r, item := [Link(2, 3), Link(3, 4)], [Link(0, 1), Link(1, 2)], ItemOfA();
    assert Position(ls, 2) == 2 && Position(r, 1) == 0;
    AddedAtIs(ls, 0, 2, 2, 1);
    var ls1 := [Link(2, 1), Link(3, 3), Link(4, 4)];
    assert ls[..0] + [Link(2, 1)] + Up(ls[0..2]) + ls[2..] == ls1;
    assert Attached(ls, item) == Some(ls1);
    assert Removed(r, 0) == [Link(1, 2)];
    assert Find(Claiming(4).reserved, 1) == 1;
    assert TakeReserved(Claiming(4), 1).reserved == [ItemOfB()];
    assert Moved(Claiming(4).sessions, 1, 0, 0, ls1, Place(ls, item)) == Claiming(5).sessions;
  }

  lemma ClaimingStep(k: nat)
    requires 1 <= k <= 4
    ensures Enabled(Claiming(k), ClaimingSteps()[k]) && Apply(Claiming(k), ClaimingSteps()[k]) == Claiming(k + 1)
  {
    hide DoDelete, DoClaim;
    if k == 1 { DeleteB(); }
    if k == 2 { assert Claiming(2).closed[1..] == [ItemOfA()]; }
    if k == 3 { assert Claiming(3).closed[1..] == [] && Claiming(3).reserved + [ItemOfA()] == Claiming(4).reserved; }
    if k == 4 { ClaimA(); }
  }

  lemma {:induction false} ClaimingRun(k: nat)
    requires 1 <= k <= 5
    ensures IsRun(Claiming(k), ClaimingSteps()[k..]) && RunOf(Claiming(k), ClaimingSteps()[k..]) == Claiming(5)
    decreases 5 - k
  {
    hide Claiming, Enabled, Apply;
    if k < 5 {
      ClaimingStep(k);
      ClaimingRun(k + 1);
      assert ClaimingSteps()[k..][1..] == ClaimingSteps()[k + 1..];
      RunStep(Claiming(k), ClaimingSteps()[k..]);
    } else {
      assert ClaimingSteps()[5..] == [];
    }
  }

  lemma FirstClaiming()
    ensures Enabled(Idle(Four()), ClaimingSteps()[0]) && Apply(Idle(Four()), ClaimingSteps()[0]) == Claiming(1)
  {
    hide DoDelete;
    DeleteA();
  }

  /** Of four windows the first two are deleted, and the first is claimed before the second: without its
      neighbours it comes back at its old position, in front of the others. */
  lemma ClaimedFirstComesFirst()
    ensures IsStart(Idle(Four())) && IsRun(Idle(Four()), ClaimingSteps())
    ensures var t := RunOf(Idle(Four()), ClaimingSteps());
      0 in t.sessions && t.sessions[0] == [Link(2, 1), Link(3, 3), Link(4, 4)] && Order(t.sessions[0]) == [1, 3, 4]
  {
    hide Apply, IsRun, RunOf, Enabled, IsStart, Claiming, Idle;
    IdleIsStart(Four());
    FirstClaiming();
    ClaimingRun(1);
    RunStep(Idle(Four()), ClaimingSteps());
    LastClaiming();
  }

  lemma LastClaiming()
    ensures 0 in Claiming(5).sessions && Claiming(5).sessions[0] == [Link(2, 1), Link(3, 3), Link(4, 4)]
    ensures Order(Claiming(5).sessions[0]) == [1, 3, 4]
  {
  }
}
