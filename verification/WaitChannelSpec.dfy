/** The wait-channel table of wait-for as a value: the transitions the code makes on its tree of
    channels, an independent per-channel automaton that knows nothing about allocation, and the
    proof that the first is the second, step by step and over whole runs. */
module WaitChannelSpec {
  import opened Common

  /** What a command's exec function returns. */
  datatype Retval = Error | Normal | Wait | Stop

  /** One channel. T is the type of suspended queue items. */
  datatype Chan<T> = Chan(locked: bool, woken: bool, waiters: seq<T>, lockers: seq<T>)

  /** The tree of channels that currently exist, by name. */
  type Table<T> = map<string, Chan<T>>

  /** The result of one operation; continued is the set of items whose waiting flag it clears. */
  datatype Outcome<T> = Outcome(table: Table<T>, ret: Retval, continued: set<T>)

  datatype Op<T> =
    | Signal(name: string)
    | Await(name: string, item: T, client: bool)
    | Lock(name: string, item: T, client: bool)
    | Unlock(name: string)
    | Flush

  function Idle<T>(): Chan<T> {
    Chan(false, false, [], [])
  }

  function Members<T>(c: Chan<T>): seq<T> {
    c.waiters + c.lockers
  }

  function Suspended<T(==)>(t: Table<T>): set<T> {
    set n, i | n in t && i in Members(t[n]) :: i
  }

  // ----- the transitions of the code -----

  /** Find the channel, or create it. */
  function Added<T>(t: Table<T>, n: string): Table<T> {
    if n in t then t else t[n := Idle()]
  }

  /** Free the channel if it is unlocked, woken and has no waiters. */
  function Removed<T>(t: Table<T>, n: string): Table<T>
    requires n in t
  {
    if t[n].locked || |t[n].waiters| > 0 || !t[n].woken then t else t - {n}
  }

  function DoSignal<T(==)>(t: Table<T>, n: string): Outcome<T> {
    var t1 := Added(t, n);
    var c := t1[n];
    if |c.waiters| == 0 && !c.woken then
      Outcome(t1[n := c.(woken := true)], Normal, {})
    else
      Outcome(Removed(t1[n := c.(waiters := [])], n), Normal, Elements(c.waiters))
  }

  function DoAwait<T(==)>(t: Table<T>, n: string, i: T, client: bool): Outcome<T> {
    if !client then Outcome(t, Error, {})
    else
      var t1 := Added(t, n);
      var c := t1[n];
      if c.woken then Outcome(Removed(t1, n), Normal, {})
      else Outcome(t1[n := c.(waiters := c.waiters + [i])], Wait, {})
  }

  function DoLock<T(==)>(t: Table<T>, n: string, i: T, client: bool): Outcome<T> {
    if !client then Outcome(t, Error, {})
    else
      var t1 := Added(t, n);
      var c := t1[n];
      if c.locked then Outcome(t1[n := c.(lockers := c.lockers + [i])], Wait, {})
      else Outcome(t1[n := c.(locked := true)], Normal, {})
  }

  function DoUnlock<T(==)>(t: Table<T>, n: string): Outcome<T> {
    if n !in t || !t[n].locked then Outcome(t, Error, {})
    else
      var c := t[n];
      if |c.lockers| > 0 then Outcome(t[n := c.(lockers := c.lockers[1..])], Normal, {c.lockers[0]})
      else Outcome(Removed(t[n := c.(locked := false)], n), Normal, {})
  }

  /** Every channel is emptied, marked woken and unlocked, and so freed. */
  function DoFlush<T(==)>(t: Table<T>): Outcome<T> {
    Outcome(map[], Normal, Suspended(t))
  }

  function Step<T(==)>(t: Table<T>, op: Op<T>): Outcome<T> {
    match op
    case Signal(n) => DoSignal(t, n)
    case Await(n, i, client) => DoAwait(t, n, i, client)
    case Lock(n, i, client) => DoLock(t, n, i, client)
    case Unlock(n) => DoUnlock(t, n)
    case Flush => DoFlush(t)
  }

  /** What a channel of that name is, whether or not it has been allocated. */
  function View<T>(t: Table<T>, n: string): Chan<T> {
    if n in t then t[n] else Idle()
  }

  // ----- invariant -----

  ghost predicate WellFormed<T>(c: Chan<T>) {
    (|c.waiters| > 0 ==> !c.woken) && (|c.lockers| > 0 ==> c.locked)
  }

  ghost predicate TableOk<T>(t: Table<T>) {
    forall n :: n in t ==> WellFormed(t[n])
  }

  /** No item is in two places: not twice among the waiters and lockers of one channel, and not in
      two channels. */
  ghost predicate OncePerItem<T>(t: Table<T>) {
    && (forall n :: n in t ==> Distinct(Members(t[n])))
    && (forall n, m, i :: n in t && m in t && i in Members(t[n]) && i in Members(t[m]) ==> n == m)
  }

  lemma StepKeepsTableOk<T>(t: Table<T>, op: Op<T>)
    requires TableOk(t)
    ensures TableOk(Step(t, op).table)
  {
  }

  /** What an operation adds to the suspended items. */
  function Joins<T(==)>(t: Table<T>, op: Op<T>): set<T> {
    if (op.Await? || op.Lock?) && Step(t, op).ret == Wait then {op.item} else {}
  }

  lemma DropPrefix<T>(s: seq<T>, w: nat)
    requires Distinct(s) && w <= |s|
    ensures Distinct(s[w..]) && Elements(s[w..]) == Elements(s) - Elements(s[..w]) && Elements(s[..w]) <= Elements(s)
  {
    assert s == s[..w] + s[w..];
  }

  lemma DropAt<T>(s: seq<T>, p: nat)
    requires Distinct(s) && p < |s|
    ensures Distinct(s[..p] + s[p + 1..]) && Elements(s[..p] + s[p + 1..]) == Elements(s) - {s[p]}
  {
    assert s == s[..p] + [s[p]] + s[p + 1..];
  }

  lemma PutAt<T>(s: seq<T>, p: nat, i: T)
    requires Distinct(s) && p <= |s| && i !in s
    ensures Distinct(s[..p] + [i] + s[p..]) && Elements(s[..p] + [i] + s[p..]) == Elements(s) + {i}
  {
    assert s == s[..p] + s[p..];
  }

  /** Replacing the channel of one name. */
  lemma UpdateChannel<T>(t: Table<T>, n: string, c: Chan<T>)
    requires OncePerItem(t) && Distinct(Members(c))
    requires forall i :: i in Members(c) && i in Suspended(t) ==> i in Members(View(t, n))
    ensures OncePerItem(t[n := c]) && Added(t, n)[n := c] == t[n := c]
    ensures Suspended(t[n := c]) == Suspended(t) - Elements(Members(View(t, n))) + Elements(Members(c))
  {
    var u := t[n := c];
    forall m, i | m in t && m != n && i in Members(t[m])
      ensures i !in Members(c) && i !in Members(View(t, n)) && i in Suspended(u)
    {
      assert i in Suspended(t);
      assert i in Members(u[m]);
    }
    forall i | i in Members(c) ensures i in Suspended(u) {
      assert i in Members(u[n]);
    }
  }

  /** Freeing a channel never discards a suspended item. */
  lemma FreeingDiscardsNobody<T>(t: Table<T>, n: string)
    requires TableOk(t) && OncePerItem(t) && n in t
    ensures OncePerItem(Removed(t, n)) && Suspended(Removed(t, n)) == Suspended(t)
  {
    if n !in Removed(t, n) {
      assert Members(t[n]) == [];
      forall i | i in Suspended(t) ensures i in Suspended(Removed(t, n)) {
        var m :| m in t && i in Members(t[m]);
        assert m in Removed(t, n) && i in Members(Removed(t, n)[m]);
      }
    }
  }

  lemma ViewIsDistinct<T>(t: Table<T>, n: string)
    requires OncePerItem(t)
    ensures Distinct(Members(View(t, n)))
    ensures forall i :: i in Members(View(t, n)) ==> i in Suspended(t)
  {
  }

  lemma SignalConserves<T>(t: Table<T>, n: string)
    requires TableOk(t) && OncePerItem(t)
    ensures var o := DoSignal(t, n);
      OncePerItem(o.table) && o.continued <= Suspended(t) && Suspended(o.table) == Suspended(t) - o.continued
  {
    hide OncePerItem, Suspended, Distinct;
    var c := View(t, n);
    ViewIsDistinct(t, n);
    if |c.waiters| == 0 && !c.woken {
      UpdateChannel(t, n, c.(woken := true));
    } else {
      DrainConserves(t, n);
    }
  }

  lemma DrainConserves<T>(t: Table<T>, n: string)
    requires TableOk(t) && OncePerItem(t)
    ensures var c := View(t, n);
      var u := Removed(t[n := c.(waiters := [])], n);
      && OncePerItem(u) && Added(t, n)[n := c.(waiters := [])] == t[n := c.(waiters := [])]
      && Elements(c.waiters) <= Suspended(t) && Suspended(u) == Suspended(t) - Elements(c.waiters)
  {
    hide OncePerItem, Suspended, Distinct, Members, Removed;
    var c := View(t, n);
    var d := c.(waiters := []);
    ViewIsDistinct(t, n);
    DrainedMembers(c);
    UpdateChannel(t, n, d);
    FreeingDiscardsNobody(t[n := d], n);
  }

  lemma DrainedMembers<T>(c: Chan<T>)
    requires Distinct(Members(c))
    ensures var d := c.(waiters := []);
      && Distinct(Members(d)) && Elements(Members(d)) == Elements(Members(c)) - Elements(c.waiters)
      && (forall i :: i in c.waiters ==> i in Members(c)) && forall i :: i in Members(d) ==> i in Members(c)
  {
    hide Distinct;
    DropPrefix(Members(c), |c.waiters|);
    assert c.lockers == Members(c)[|c.waiters|..] && c.waiters == Members(c)[..|c.waiters|];
    assert Members(c.(waiters := [])) == c.lockers;
  }

  lemma AwaitConserves<T>(t: Table<T>, n: string, i: T)
    requires TableOk(t) && OncePerItem(t) && i !in Suspended(t)
    ensures var o := DoAwait(t, n, i, true);
      OncePerItem(o.table) && Suspended(o.table) == Suspended(t) + if o.ret == Wait then {i} else {}
  {
    hide OncePerItem, Suspended, Distinct;
    var c := View(t, n);
    ViewIsDistinct(t, n);
    if c.woken {
      assert t[n := c] == t;
      FreeingDiscardsNobody(t, n);
    } else {
      var d := c.(waiters := c.waiters + [i]);
      PutAt(Members(c), |c.waiters|, i);
      assert Members(d) == Members(c)[..|c.waiters|] + [i] + Members(c)[|c.waiters|..];
      UpdateChannel(t, n, d);
    }
  }

  lemma LockConserves<T>(t: Table<T>, n: string, i: T)
    requires TableOk(t) && OncePerItem(t) && i !in Suspended(t)
    ensures var o := DoLock(t, n, i, true);
      OncePerItem(o.table) && Suspended(o.table) == Suspended(t) + if o.ret == Wait then {i} else {}
  {
    hide OncePerItem, Suspended, Distinct;
    var c := View(t, n);
    ViewIsDistinct(t, n);
    if c.locked {
      var d, s := c.(lockers := c.lockers + [i]), Members(c);
      PutAt(s, |s|, i);
      assert Members(d) == s[..|s|] + [i] + s[|s|..];
      UpdateChannel(t, n, d);
    } else {
      UpdateChannel(t, n, c.(locked := true));
    }
  }

  lemma UnlockConserves<T>(t: Table<T>, n: string)
    requires TableOk(t) && OncePerItem(t)
    ensures var o := DoUnlock(t, n);
      OncePerItem(o.table) && o.continued <= Suspended(t) && Suspended(o.table) == Suspended(t) - o.continued
  {
    hide OncePerItem, Suspended, Distinct;
    var c := View(t, n);
    ViewIsDistinct(t, n);
    if n in t && c.locked && |c.lockers| > 0 {
      var d, s, p := c.(lockers := c.lockers[1..]), Members(c), |c.waiters|;
      DropAt(s, p);
      assert s[p] == c.lockers[0] && s[p] in s && s[p] in Suspended(t);
      assert Members(d) == s[..p] + s[p + 1..];
      UpdateChannel(t, n, d);
    } else if n in t && c.locked {
      UpdateChannel(t, n, c.(locked := false));
      FreeingDiscardsNobody(t[n := c.(locked := false)], n);
    }
  }

  /** No operation loses a suspended item, whatever channels it frees: those it no longer holds are
      exactly those it continues. */
  lemma StepConservesSuspended<T>(t: Table<T>, op: Op<T>)
    requires TableOk(t) && OncePerItem(t)
    requires (op.Await? || op.Lock?) ==> op.item !in Suspended(t)
    ensures OncePerItem(Step(t, op).table)
    ensures Step(t, op).continued <= Suspended(t)
    ensures Suspended(Step(t, op).table) == Suspended(t) - Step(t, op).continued + Joins(t, op)
  {
    match op
    case Signal(n) => SignalConserves(t, n);
    case Await(n, i, client) => if client { AwaitConserves(t, n, i); }
    case Lock(n, i, client) => if client { LockConserves(t, n, i); }
    case Unlock(n) => UnlockConserves(t, n);
    case Flush =>
  }

  // ----- the reference: one channel that always exists -----

  datatype Reply<T> = Reply(chan: Chan<T>, ret: Retval, continued: set<T>)

  /** The automaton of one channel. A wake-up is a latch: it is set by a signal nobody waits for,
      and on an unlocked channel it is used up by the next signal, wait or final unlock. */
  function Reference<T(==)>(c: Chan<T>, op: Op<T>): Reply<T> {
    match op
    case Signal(_) =>
      if |c.waiters| > 0 then Reply(c.(waiters := []), Normal, Elements(c.waiters))
      else if c.woken && !c.locked then Reply(c.(woken := false), Normal, {})
      else Reply(c.(woken := true), Normal, {})
    case Await(_, i, client) =>
      if !client then Reply(c, Error, {})
      else if c.woken then Reply(c.(woken := c.locked), Normal, {})
      else Reply(c.(waiters := c.waiters + [i]), Wait, {})
    case Lock(_, i, client) =>
      if !client then Reply(c, Error, {})
      else if c.locked then Reply(c.(lockers := c.lockers + [i]), Wait, {})
      else Reply(c.(locked := true), Normal, {})
    case Unlock(_) =>
      if !c.locked then Reply(c, Error, {})
      else if |c.lockers| > 0 then Reply(c.(lockers := c.lockers[1..]), Normal, {c.lockers[0]})
      else Reply(c.(locked := false, woken := false), Normal, {})
    case Flush =>
      Reply(Idle(), Normal, Elements(Members(c)))
  }

  /** One operation on the table is one operation of the automaton of its channel; every other
      channel is as it was. */
  lemma StepRefinesReference<T>(t: Table<T>, op: Op<T>, n: string)
    requires TableOk(t)
    ensures op.Flush? ==> View(Step(t, op).table, n) == Idle<T>()
    ensures !op.Flush? && n != op.name ==> View(Step(t, op).table, n) == View(t, n)
    ensures !op.Flush? && n == op.name ==>
      var r := Reference(View(t, n), op);
      Step(t, op) == Outcome(Step(t, op).table, r.ret, r.continued) && View(Step(t, op).table, n) == r.chan
  {
  }

  // ----- runs -----

  function Run<T(==)>(t: Table<T>, ops: seq<Op<T>>): Table<T> {
    if |ops| == 0 then t else Step(Run(t, ops[..|ops| - 1]), ops[|ops| - 1]).table
  }

  /** What the last operation of a run answered. */
  function Answer<T(==)>(t: Table<T>, ops: seq<Op<T>>): (Retval, set<T>)
    requires |ops| > 0
  {
    var o := Step(Run(t, ops[..|ops| - 1]), ops[|ops| - 1]);
    (o.ret, o.continued)
  }

  /** Whether idle channels are kept or freed cannot be observed: two tables with the same views
      answer every run alike. */
  lemma {:induction false} KeptOrFreedIsUnobservable<T>(t: Table<T>, u: Table<T>, ops: seq<Op<T>>)
    requires TableOk(t) && TableOk(u)
    requires forall n: string :: View(t, n) == View(u, n)
    ensures TableOk(Run(t, ops)) && TableOk(Run(u, ops))
    ensures forall n: string :: View(Run(t, ops), n) == View(Run(u, ops), n)
    ensures |ops| > 0 ==> Answer(t, ops) == Answer(u, ops)
  {
    if |ops| > 0 {
      var op := ops[|ops| - 1];
      var init := ops[..|ops| - 1];
      KeptOrFreedIsUnobservable(t, u, init);
      var t1, u1 := Run(t, init), Run(u, init);
      StepKeepsTableOk(t1, op);
      StepKeepsTableOk(u1, op);
      forall n: string
        ensures View(Step(t1, op).table, n) == View(Step(u1, op).table, n)
      {
        StepRefinesReference(t1, op, n);
        StepRefinesReference(u1, op, n);
      }
      if op.Flush? {
        SameViewsSuspendTheSame(t1, u1);
      } else {
        StepRefinesReference(t1, op, op.name);
        StepRefinesReference(u1, op, op.name);
      }
    }
  }

  lemma SameViewsSuspendTheSame<T>(t: Table<T>, u: Table<T>)
    requires forall n: string :: View(t, n) == View(u, n)
    ensures Suspended(t) == Suspended(u)
  {
    forall i | i in Suspended(t) ensures i in Suspended(u) {
      var n :| n in t && i in Members(t[n]);
      assert View(t, n) == View(u, n);
    }
    forall i | i in Suspended(u) ensures i in Suspended(t) {
      var n :| n in u && i in Members(u[n]);
      assert View(t, n) == View(u, n);
    }
  }

  // ----- locks: accounting and fairness -----

  ghost predicate FlushFree<T>(ops: seq<Op<T>>) {
    forall k :: 0 <= k < |ops| ==> !ops[k].Flush?
  }

  /** Does an operation ask for the lock of channel n? */
  ghost function LockRequest<T>(op: Op<T>, n: string): seq<T> {
    if op.Lock? && op.name == n && op.client then [op.item] else []
  }

  /** Items that asked for the lock of channel n, in order. */
  ghost function LockRequests<T>(t: Table<T>, ops: seq<Op<T>>, n: string): seq<T> {
    if |ops| == 0 then [] else LockRequests(t, ops[..|ops| - 1], n) + LockRequest(ops[|ops| - 1], n)
  }

  /** The item that an operation gives the lock of channel n: its own at once, or by unlocking the first
      that is queued for it. */
  ghost function LockGrant<T>(before: Table<T>, op: Op<T>, n: string): seq<T> {
    if op.Lock? && op.name == n && Step(before, op).ret == Normal then [op.item]
    else if op.Unlock? && op.name == n && Step(before, op).ret == Normal && |View(before, n).lockers| > 0
    then [View(before, n).lockers[0]]
    else []
  }

  /** Items that were given the lock of channel n, in order. */
  ghost function LockGrants<T>(t: Table<T>, ops: seq<Op<T>>, n: string): seq<T> {
    if |ops| == 0 then [] else
      var init := ops[..|ops| - 1];
      LockGrants(t, init, n) + LockGrant(Run(t, init), ops[|ops| - 1], n)
  }

  ghost function Unlocked<T>(before: Table<T>, op: Op<T>, n: string): nat {
    if op.Unlock? && op.name == n && Step(before, op).ret == Normal then 1 else 0
  }

  /** Successful unlocks of channel n. */
  ghost function Unlocks<T>(t: Table<T>, ops: seq<Op<T>>, n: string): nat {
    if |ops| == 0 then 0 else
      var init := ops[..|ops| - 1];
      Unlocks(t, init, n) + Unlocked(Run(t, init), ops[|ops| - 1], n)
  }

  /** What one operation does to a lock and its queue. */
  lemma LockStep<T>(t: Table<T>, op: Op<T>, n: string)
    requires TableOk(t) && !op.Flush?
    ensures var c, d := View(t, n), View(Step(t, op).table, n);
      && TableOk(Step(t, op).table)
      && c.lockers + LockRequest(op, n) == LockGrant(t, op, n) + d.lockers
      && (if c.locked then 1 else 0) + |LockGrant(t, op, n)| - Unlocked(t, op, n) == (if d.locked then 1 else 0)
  {
    hide DoSignal, DoAwait, DoLock, DoUnlock, DoFlush, Step, Added, Removed;
    StepKeepsTableOk(t, op);
    StepRefinesReference(t, op, n);
    var c := View(t, n);
    if op.Unlock? && op.name == n && |c.lockers| > 0 {
      assert c.lockers == [c.lockers[0]] + c.lockers[1..];
    }
  }

  /** On every flush-free run the lock is granted strictly in the order it was asked for, the items
      still waiting are exactly the requests not yet granted, and grants exceed unlocks by one
      exactly while the channel is locked. */
  lemma {:induction false} LocksAreFair<T>(ops: seq<Op<T>>, n: string)
    requires FlushFree(ops)
    ensures TableOk(Run<T>(map[], ops))
    ensures LockRequests(map[], ops, n) == LockGrants(map[], ops, n) + View(Run(map[], ops), n).lockers
    ensures |LockGrants(map[], ops, n)| - Unlocks(map[], ops, n) == (if View(Run(map[], ops), n).locked then 1 else 0)
  {
    hide Step, TableOk, View, LockRequest, LockGrant, Unlocked;
    if |ops| == 0 {
      NothingYet<T>(n);
    } else {
      var init, op := ops[..|ops| - 1], ops[|ops| - 1];
      LocksAreFair(init, n);
      var t := Run(map[], init);
      LockStep(t, op, n);
      Regroup(LockGrants(map[], init, n), View(t, n).lockers, LockRequest(op, n));
      Regroup(LockGrants(map[], init, n), LockGrant(t, op, n), View(Step(t, op).table, n).lockers);
    }
  }

  lemma Regroup<T>(a: seq<T>, b: seq<T>, c: seq<T>)
    ensures a + b + c == a + (b + c)
  {
  }

  lemma NothingYet<T>(n: string)
    ensures TableOk<T>(map[]) && View<T>(map[], n) == Idle()
  {
  }

  /** Does an operation ask to wait on channel n? */
  ghost function WaitRequest<T>(op: Op<T>, n: string): seq<T> {
    if op.Await? && op.name == n && op.client then [op.item] else []
  }

  /** Items that asked to wait on channel n, in order. */
  ghost function WaitRequests<T>(t: Table<T>, ops: seq<Op<T>>, n: string): seq<T> {
    if |ops| == 0 then [] else WaitRequests(t, ops[..|ops| - 1], n) + WaitRequest(ops[|ops| - 1], n)
  }

  /** The items whose wait on channel n an operation ends: its own if it finds the latch set, or all if it
      is a signal. */
  ghost function WaitServed<T>(before: Table<T>, op: Op<T>, n: string): seq<T> {
    if op.Await? && op.name == n && Step(before, op).ret == Normal then [op.item]
    else if op.Signal? && op.name == n then View(before, n).waiters
    else []
  }

  /** Items whose wait on channel n is over, in order. */
  ghost function WaitsServed<T>(t: Table<T>, ops: seq<Op<T>>, n: string): seq<T> {
    if |ops| == 0 then [] else
      var init := ops[..|ops| - 1];
      WaitsServed(t, init, n) + WaitServed(Run(t, init), ops[|ops| - 1], n)
  }

  /** What one operation does to the waiters. */
  lemma WaitStep<T>(t: Table<T>, op: Op<T>, n: string)
    requires TableOk(t) && !op.Flush?
    ensures var c, d := View(t, n), View(Step(t, op).table, n);
      TableOk(Step(t, op).table) && c.waiters + WaitRequest(op, n) == WaitServed(t, op, n) + d.waiters
  {
    hide DoSignal, DoAwait, DoLock, DoUnlock, DoFlush, Step, Added, Removed;
    StepKeepsTableOk(t, op);
    StepRefinesReference(t, op, n);
  }

  /** On every flush-free run the items waiting on a channel are exactly the requests not yet
      served, and requests are served in order: a set latch never overtakes an earlier waiter. */
  lemma {:induction false} WaitsAreServedInOrder<T>(ops: seq<Op<T>>, n: string)
    requires FlushFree(ops)
    ensures TableOk(Run<T>(map[], ops))
    ensures WaitRequests(map[], ops, n) == WaitsServed(map[], ops, n) + View(Run(map[], ops), n).waiters
  {
    hide Step, TableOk, View, WaitRequest, WaitServed;
    if |ops| == 0 {
      NothingYet<T>(n);
    } else {
      var init, op := ops[..|ops| - 1], ops[|ops| - 1];
      WaitsAreServedInOrder(init, n);
      var t := Run(map[], init);
      WaitStep(t, op, n);
      Regroup(WaitsServed(map[], init, n), View(t, n).waiters, WaitRequest(op, n));
      Regroup(WaitsServed(map[], init, n), WaitServed(t, op, n), View(Step(t, op).table, n).waiters);
    }
  }

  // ----- the latch -----

  function Repeat<T>(op: Op<T>, k: nat): seq<Op<T>> {
    seq(k, _ => op)
  }

  /** Signalling a channel nobody waits on toggles its latch while it is unlocked: an even number of
      signals leaves no trace. While it is locked one signal is enough and further ones are absorbed. */
  lemma {:induction false} UnheardSignals<T>(t: Table<T>, n: string, k: nat)
    requires TableOk(t) && |View(t, n).waiters| == 0
    ensures var c, d := View(t, n), View(Run(t, Repeat(Signal(n), k)), n);
      && d == c.(woken := d.woken)
      && (c.locked ==> d.woken == (c.woken || k > 0))
      && (!c.locked ==> d.woken == (c.woken != (k % 2 == 1)))
    ensures TableOk(Run(t, Repeat(Signal(n), k)))
  {
    hide DoSignal, DoAwait, DoLock, DoUnlock, DoFlush, Step, Added, Removed;
    if k > 0 {
      UnheardSignals(t, n, k - 1);
      var ops := Repeat(Signal(n), k);
      assert ops[..k - 1] == Repeat(Signal(n), k - 1);
      StepKeepsTableOk(Run(t, ops[..k - 1]), Signal(n));
      StepRefinesReference(Run(t, ops[..k - 1]), Signal(n), n);
    }
  }
}
