/** Command queues and wait channels together, as a state machine on values. A step fires the head of
    one queue, pops a finished head, queues new items or flushes the channels; the queues take turns
    in any order. */
module QueueProtocol {
  import opened Common
  import opened WaitChannelSpec
  import opened CmdLists
  import opened CmdqItems
  import WaitFor

  /** waiting is the set of items with the waiting flag, clients are the clients that items are queued for,
      and refs how often everything is referred to; known, log and outside are history: every item ever
      queued, the items with the fired flag in the order in which they were fired, and the references that
      no item in a queue holds. */
  datatype Sys = Sys(
    lists: map<CmdqList, seq<CmdqItem>>,
    waiting: set<CmdqItem>,
    table: Table<CmdqItem>,
    known: set<CmdqItem>,
    log: seq<CmdqItem>,
    clients: Clients,
    refs: multiset<Counted>,
    outside: multiset<Counted>)

  /** New items are inserted behind an item for its client, or for the one that it runs for if it has none.
      found is the client that is found for a head that has none, resolved says whether its targets were,
      and hooks are the items its hook inserts. New items come with references to what they hold. Hold and
      Release are what others than items in queues do to references. */
  datatype SysStep =
    | Append(queue: CmdqList, client: Client?, chain: seq<CmdqItem>)
    | InsertAfter(queue: CmdqList, at: nat, client: Client?, chain: seq<CmdqItem>)
    | Fire(queue: CmdqList, found: Client?, resolved: bool, hooks: seq<CmdqItem>)
    | Pop(queue: CmdqList)
    | FlushChannels
    | Hold(more: multiset<Counted>)
    | Release(less: multiset<Counted>)

  /** An item whose firing inserts no hooks. */
  predicate Quiet(i: CmdqItem) {
    i.kind.Callback? || i.state.noHooks
  }

  /** What firing an item answers. */
  ghost function Executed(t: Table<CmdqItem>, i: CmdqItem, client: bool, resolved: bool): Outcome<CmdqItem> {
    match i.kind
    case Callback(ret) => Outcome(t, ret, {})
    case Command(e) =>
      if !resolved then Outcome(t, Error, {})
      else match e.action
        case Plain(ret) => Outcome(t, ret, {})
        case WaitFor(kind, name) => WaitChannelSpec.Step(t, WaitFor.OpOf(i, client, kind, name))
  }

  /** The items behind the head once it has been fired: its hooks come first, and an error takes away
      the rest of its group. */
  function Following(i: CmdqItem, ret: Retval, rest: seq<CmdqItem>): seq<CmdqItem> {
    if ret == Error && i.kind.Command? && i.group != 0 then Without(rest, i.group) else rest
  }

  ghost predicate Fresh(s: Sys, chain: seq<CmdqItem>) {
    Distinct(chain) && forall i :: i in chain ==> i !in s.known
  }

  ghost predicate Enabled(s: Sys, st: SysStep) {
    match st
    case Append(q, _, chain) => q in s.lists && Fresh(s, chain)
    case InsertAfter(q, at, c, chain) =>
      && q in s.lists && at < |s.lists[q]| && Fresh(s, chain)
      && (ClientIn(s.clients, s.lists[q][at]) != null ==> c == ClientIn(s.clients, s.lists[q][at]))
    case Fire(q, _, _, hooks) =>
      && q in s.lists && |s.lists[q]| > 0
      && s.lists[q][0] !in s.waiting && s.lists[q][0] !in s.log
      && Fresh(s, hooks) && (Quiet(s.lists[q][0]) ==> hooks == []) && (forall h :: h in hooks ==> Quiet(h))
    case Pop(q) =>
      q in s.lists && |s.lists[q]| > 0 && s.lists[q][0] in s.log && s.lists[q][0] !in s.waiting
    case FlushChannels => true
    case Hold(_) => true
    case Release(less) => less <= s.outside
  }

  /** The client that the head of a queue runs for: its own, or else the one that is found for it. */
  ghost function Runner(s: Sys, st: SysStep): Client?
    requires st.Fire? && Enabled(s, st)
  {
    var own := ClientIn(s.clients, s.lists[st.queue][0]);
    if own != null then own else st.found
  }

  /** What firing the head of a queue answers. */
  ghost function Answered(s: Sys, st: SysStep): Outcome<CmdqItem>
    requires st.Fire? && Enabled(s, st)
  {
    Executed(s.table, s.lists[st.queue][0], Runner(s, st) != null, st.resolved)
  }

  /** After-hooks are queued for the client the head ran for, error hooks for its own. */
  ghost function HookClient(s: Sys, st: SysStep): Client?
    requires st.Fire? && Enabled(s, st)
  {
    if Answered(s, st).ret == Error then ClientIn(s.clients, s.lists[st.queue][0]) else Runner(s, st)
  }

  /** The head answers what its kind says: a callback its value, a command whose targets are not resolved an
      error, and any other what it does, for the channels or not. */
  lemma AnswersMean(s: Sys, st: SysStep)
    requires st.Fire? && Enabled(s, st)
    ensures var i, a := s.lists[st.queue][0], Answered(s, st);
      && (i.kind.Callback? ==> a == Outcome(s.table, i.kind.ret, {}))
      && (i.kind.Command? && !st.resolved ==> a == Outcome(s.table, Error, {}))
      && (i.kind.Command? && st.resolved && i.kind.entry.action.Plain? ==>
        a == Outcome(s.table, i.kind.entry.action.ret, {}))
      && (i.kind.Command? && st.resolved && i.kind.entry.action.WaitFor? ==>
        var client := ClientIn(s.clients, i) != null || st.found != null;
        var n := i.kind.entry.action.channel;
        a == WaitChannelSpec.Step(s.table,
          match i.kind.entry.action.kind
          case SignalChannel => Signal(n)
          case AwaitChannel => Await(n, i, client)
          case LockChannel => Lock(n, i, client)
          case UnlockChannel => Unlock(n)))
  {
    hide WaitChannelSpec.Step;
  }

  /** New items are queued for a client, and hold what they hold. */
  ghost function Queued(s: Sys, chain: seq<CmdqItem>, c: Client?): Sys {
    var clients := s.clients + map i | i in chain :: c;
    s.(known := s.known + Elements(chain), clients := clients, refs := s.refs + AllHeld(chain, clients))
  }

  /** The items behind the head that an error takes away. */
  function TakenAway(i: CmdqItem, ret: Retval, rest: seq<CmdqItem>): seq<CmdqItem> {
    if ret == Error && i.kind.Command? && i.group != 0 then OfGroup(rest, i.group) else []
  }

  ghost function Fired(s: Sys, st: SysStep): Sys
    requires st.Fire? && Enabled(s, st)
  {
    var l := s.lists[st.queue];
    var o, s1 := Answered(s, st), Queued(s, st.hooks, HookClient(s, st));
    s1.(lists := s.lists[st.queue := [l[0]] + Following(l[0], o.ret, st.hooks + l[1..])],
        waiting := s.waiting - o.continued + (if o.ret == Wait then {l[0]} else {}),
        table := o.table, log := s.log + [l[0]],
        refs := s1.refs - AllHeld(TakenAway(l[0], o.ret, st.hooks + l[1..]), s1.clients))
  }

  ghost function Apply(s: Sys, st: SysStep): Sys
    requires Enabled(s, st)
  {
    match st
    case Append(q, c, chain) => Queued(s, chain, c).(lists := s.lists[q := s.lists[q] + chain])
    case InsertAfter(q, at, c, chain) =>
      var l := s.lists[q];
      Queued(s, chain, c).(lists := s.lists[q := l[..at + 1] + chain + l[at + 1..]])
    case Fire(_, _, _, _) => Fired(s, st)
    case Pop(q) =>
      var i := s.lists[q][0];
      s.(lists := s.lists[q := s.lists[q][1..]], refs := s.refs - Held(i, ClientIn(s.clients, i)))
    case FlushChannels =>
      var o := DoFlush(s.table);
      s.(table := o.table, waiting := s.waiting - o.continued)
    case Hold(more) => s.(refs := s.refs + more, outside := s.outside + more)
    case Release(less) => s.(refs := s.refs - less, outside := s.outside - less)
  }

  /** The hooks of the head run for its own client, or if it has none for the one that was found for it, but
      after an error not for that. */
  lemma HooksRunFor(s: Sys, st: SysStep, i: CmdqItem)
    requires st.Fire? && Enabled(s, st) && i in st.hooks
    ensures var own := ClientIn(s.clients, s.lists[st.queue][0]);
      i in Apply(s, st).clients
      && Apply(s, st).clients[i]
        == if own != null then own else if Answered(s, st).ret == Error then null else st.found
  {
    hide AllHeld, TakenAway, Following, Executed;
  }

  ghost predicate IsRun(s: Sys, steps: seq<SysStep>)
    decreases |steps|, 0
  {
    |steps| > 0 ==>
      && IsRun(s, steps[..|steps| - 1])
      && Enabled(Run(s, steps[..|steps| - 1]), steps[|steps| - 1])
  }

  ghost function Run(s: Sys, steps: seq<SysStep>): Sys
    requires IsRun(s, steps)
    decreases |steps|, 1
  {
    if |steps| == 0 then s else Apply(Run(s, steps[..|steps| - 1]), steps[|steps| - 1])
  }

  lemma RunOneMore(s: Sys, steps: seq<SysStep>, st: SysStep)
    requires IsRun(s, steps) && Enabled(Run(s, steps), st)
    ensures IsRun(s, steps + [st]) && Run(s, steps + [st]) == Apply(Run(s, steps), st)
  {
    hide Enabled, Apply;
    assert (steps + [st])[..|steps|] == steps;
  }

  lemma RunOfOne(s: Sys, st: SysStep)
    ensures IsRun(s, [st]) <==> Enabled(s, st)
    ensures Enabled(s, st) ==> Run(s, [st]) == Apply(s, st)
  {
    assert [st][..0] == [];
  }

  lemma RunOfTwo(s: Sys, st: SysStep, st': SysStep)
    requires IsRun(s, [st, st'])
    ensures Enabled(s, st) && Enabled(Apply(s, st), st') && Run(s, [st, st']) == Apply(Apply(s, st), st')
  {
    assert [st, st'][..1] == [st];
    RunOfOne(s, st);
  }

  lemma RunTwo(s: Sys, st: SysStep, st': SysStep)
    requires Enabled(s, st) && Enabled(Apply(s, st), st')
    ensures IsRun(s, [st, st']) && Run(s, [st, st']) == Apply(Apply(s, st), st')
  {
    RunOfOne(s, st);
    RunOneMore(s, [st], st');
    assert [st] + [st'] == [st, st'];
  }

  lemma {:induction false} RunsCompose(s: Sys, first: seq<SysStep>, second: seq<SysStep>)
    requires IsRun(s, first) && IsRun(Run(s, first), second)
    ensures IsRun(s, first + second) && Run(s, first + second) == Run(Run(s, first), second)
    decreases |second|
  {
    hide Enabled, Apply;
    if |second| == 0 {
      assert first + second == first;
    } else {
      var init, st := second[..|second| - 1], second[|second| - 1];
      RunsCompose(s, first, init);
      RunOneMore(s, first + init, st);
      assert first + second == (first + init) + [st];
    }
  }

  /** A server with empty queues and no channels, and nothing that counts references yet. */
  ghost function Start(queues: set<CmdqList>): Sys {
    Sys(map q | q in queues :: [], {}, map[], {}, [], map[], multiset{}, multiset{})
  }

  // ----- invariant -----

  ghost predicate IsHead(s: Sys, i: CmdqItem) {
    exists q :: q in s.lists && |s.lists[q]| > 0 && s.lists[q][0] == i
  }

  ghost predicate ListsOk(s: Sys) {
    && (forall q :: q in s.lists ==> Distinct(s.lists[q]))
    && (forall q, i :: q in s.lists && i in s.lists[q] ==> i in s.known)
    && (forall q, r, i :: q in s.lists && r in s.lists && i in s.lists[q] && i in s.lists[r] ==> q == r)
  }

  ghost predicate LogOk(s: Sys) {
    && Distinct(s.log)
    && (forall i :: i in s.log ==> i in s.known)
    && (forall q, k :: q in s.lists && 0 <= k < |s.lists[q]| && s.lists[q][k] in s.log ==> k == 0)
  }

  ghost predicate Inv(s: Sys) {
    && ListsOk(s) && LogOk(s) && s.clients.Keys == s.known
    && (forall i :: i in s.waiting ==> IsHead(s, i) && i in s.log)
    && s.waiting == Suspended(s.table)
    && TableOk(s.table) && OncePerItem(s.table)
  }

  lemma FollowingFacts(i: CmdqItem, ret: Retval, rest: seq<CmdqItem>)
    requires Distinct(rest)
    ensures Distinct(Following(i, ret, rest))
    ensures forall j :: j in Following(i, ret, rest) ==> j in rest
  {
    WithoutFacts(rest, i.group);
  }

  /** Replacing the list of one queue by one made of its own items and new ones. */
  lemma ReplaceList(s: Sys, q: CmdqList, l: seq<CmdqItem>, known: set<CmdqItem>)
    requires ListsOk(s) && q in s.lists && Distinct(l) && s.known <= known
    requires forall i :: i in l ==> i in known && (i in s.lists[q] || i !in s.known)
    ensures ListsOk(s.(lists := s.lists[q := l], known := known))
  {
  }

  lemma SpliceFacts(s: Sys, q: CmdqList, at: nat, chain: seq<CmdqItem>)
    requires ListsOk(s) && q in s.lists && at <= |s.lists[q]| && Fresh(s, chain)
    ensures var l := s.lists[q][..at] + chain + s.lists[q][at..];
      Distinct(l) && forall i :: i in l <==> i in s.lists[q] || i in chain
  {
    var l := s.lists[q];
    assert l == l[..at] + l[at..];
    assert forall k :: 0 <= k < |l| ==> l[k] in s.known;
  }

  lemma SpliceKeepsInv(s: Sys, q: CmdqList, at: nat, chain: seq<CmdqItem>, c: Client?)
    requires Inv(s) && q in s.lists && at <= |s.lists[q]| && Fresh(s, chain)
    requires at > 0 || |s.lists[q]| == 0
    ensures Inv(Queued(s, chain, c).(lists := s.lists[q := s.lists[q][..at] + chain + s.lists[q][at..]]))
  {
    hide AllHeld, TableOk, OncePerItem, Suspended;
    var l := s.lists[q][..at] + chain + s.lists[q][at..];
    SpliceFacts(s, q, at, chain);
    ReplaceList(s, q, l, s.known + Elements(chain));
    var s' := Queued(s, chain, c).(lists := s.lists[q := l]);
    forall i | i in s.waiting ensures IsHead(s', i) {
      var r :| r in s.lists && |s.lists[r]| > 0 && s.lists[r][0] == i;
      assert s'.lists[r][0] == i;
    }
  }

  lemma ExecutedFacts(s: Sys, i: CmdqItem, client: bool, resolved: bool)
    requires Inv(s) && i !in s.waiting
    ensures var o := Executed(s.table, i, client, resolved);
      && TableOk(o.table) && OncePerItem(o.table) && o.continued <= Suspended(s.table)
      && Suspended(o.table) == s.waiting - o.continued + (if o.ret == Wait then {i} else {})
  {
    hide Suspended, TableOk, OncePerItem, ListsOk, LogOk, IsHead;
    if i.kind.Command? && resolved && i.kind.entry.action.WaitFor? {
      var op := WaitFor.OpOf(i, client, i.kind.entry.action.kind, i.kind.entry.action.channel);
      StepConservesSuspended(s.table, op);
      StepKeepsTableOk(s.table, op);
    }
  }

  /** The list of the queue that fires. */
  lemma FiredList(s: Sys, st: SysStep)
    requires Inv(s) && st.Fire? && Enabled(s, st)
    ensures var l := s.lists[st.queue];
      var rest := st.hooks + l[1..];
      var f := Following(l[0], Answered(s, st).ret, rest);
      && l == [l[0]] + l[1..] && Distinct(l) && Distinct(rest)
      && l[0] !in f && Distinct(f) && (forall x :: x in f ==> x in l || x in st.hooks)
      && l[0] !in s.log
  {
    var l := s.lists[st.queue];
    var rest := st.hooks + l[1..];
    SpliceFacts(s, st.queue, 1, st.hooks);
    assert l[..1] + st.hooks + l[1..] == [l[0]] + rest;
    HeadIsNotBehind(l[0], rest);
    FollowingFacts(l[0], Answered(s, st).ret, rest);
  }

  /** The lists and the log once a head has been fired. */
  lemma FiredLists(s: Sys, s': Sys, q: CmdqList, f: seq<CmdqItem>, hooks: seq<CmdqItem>)
    requires ListsOk(s) && LogOk(s) && q in s.lists && |s.lists[q]| > 0 && Fresh(s, hooks)
    requires var i := s.lists[q][0];
      && Distinct(f) && i !in f && i !in s.log && (forall x :: x in f ==> x in s.lists[q] || x in hooks)
      && s'.lists == s.lists[q := [i] + f] && s'.known == s.known + Elements(hooks) && s'.log == s.log + [i]
    ensures ListsOk(s') && LogOk(s') && IsHead(s', s.lists[q][0])
    ensures forall j :: IsHead(s, j) ==> IsHead(s', j)
  {
    var i := s.lists[q][0];
    assert i in s.lists[q];
    ReplaceList(s, q, [i] + f, s'.known);
    assert s'.lists[q][0] == i;
    forall j | IsHead(s, j) ensures IsHead(s', j) {
      var r :| r in s.lists && |s.lists[r]| > 0 && s.lists[r][0] == j;
      assert s'.lists[r][0] == j;
    }
  }

  lemma FireKeepsInv(s: Sys, st: SysStep)
    requires Inv(s) && st.Fire? && Enabled(s, st)
    ensures Inv(Apply(s, st))
  {
    hide AllHeld, TableOk, OncePerItem, Suspended, Following, Executed, Runner, HookClient, TakenAway;
    hide ListsOk, LogOk, IsHead, Distinct;
    var l, s' := s.lists[st.queue], Apply(s, st);
    ExecutedFacts(s, l[0], Runner(s, st) != null, st.resolved);
    FiredList(s, st);
    FiredLists(s, s', st.queue, Following(l[0], Answered(s, st).ret, st.hooks + l[1..]), st.hooks);
    assert forall x :: x in s.log ==> x in s'.log;
  }

  lemma PopKeepsInv(s: Sys, st: SysStep)
    requires Inv(s) && st.Pop? && Enabled(s, st)
    ensures Inv(Apply(s, st))
  {
    var q := st.queue;
    var l := s.lists[q];
    assert l == [l[0]] + l[1..];
    ReplaceList(s, q, l[1..], s.known);
    var s' := Apply(s, st);
    forall j | j in s'.waiting ensures IsHead(s', j) {
      var r :| r in s.lists && |s.lists[r]| > 0 && s.lists[r][0] == j;
      assert r != q;
      assert s'.lists[r][0] == j;
    }
    assert l[0] !in l[1..];
  }

  lemma FlushKeepsInv(s: Sys)
    requires Inv(s)
    ensures Inv(Apply(s, FlushChannels))
  {
    hide Distinct;
  }

  lemma StepKeepsInv(s: Sys, st: SysStep)
    requires Inv(s) && Enabled(s, st)
    ensures Inv(Apply(s, st))
  {
    hide ListsOk, LogOk, IsHead, TableOk, OncePerItem, Suspended, Queued, Fired, Fresh, Held;
    match st
    case Append(q, c, chain) =>
      var l := s.lists[q];
      SpliceKeepsInv(s, q, |l|, chain, c);
      assert l[..|l|] + chain + l[|l|..] == l + chain;
    case InsertAfter(q, at, c, chain) => SpliceKeepsInv(s, q, at + 1, chain, c);
    case Fire(_, _, _, _) => FireKeepsInv(s, st);
    case Pop(_) => PopKeepsInv(s, st);
    case FlushChannels => FlushKeepsInv(s);
    case Hold(more) => OtherRefsKeepInv(s, Apply(s, st));
    case Release(less) => OtherRefsKeepInv(s, Apply(s, st));
  }

  lemma OtherRefsKeepInv(s: Sys, s': Sys)
    requires Inv(s) && s' == s.(refs := s'.refs, outside := s'.outside)
    ensures Inv(s')
  {
    hide TableOk, OncePerItem, Suspended;
  }

  lemma {:induction false} RunKeepsInv(s: Sys, steps: seq<SysStep>)
    requires Inv(s) && IsRun(s, steps)
    ensures Inv(Run(s, steps))
    decreases |steps|
  {
    if |steps| > 0 {
      RunKeepsInv(s, steps[..|steps| - 1]);
      StepKeepsInv(Run(s, steps[..|steps| - 1]), steps[|steps| - 1]);
    }
  }

  lemma StartIsOk(queues: set<CmdqList>)
    ensures Inv(Start(queues))
  {
  }

  /** Where an item is suspended: a channel and a position in its waiter and locker lists. */
  ghost function Places(t: Table<CmdqItem>, i: CmdqItem): set<(string, nat)> {
    set n, k: nat | n in t && k < |Members(t[n])| && Members(t[n])[k] == i :: (n, k)
  }

  lemma PlacesOfSuspended(t: Table<CmdqItem>, i: CmdqItem)
    ensures i in Suspended(t) <==> Places(t, i) != {}
  {
    if i in Suspended(t) {
      var n :| n in t && i in Members(t[n]);
      var k: nat :| k < |Members(t[n])| && Members(t[n])[k] == i;
      assert (n, k) in Places(t, i);
    } else {
      assert forall n, k: nat :: n in t && k < |Members(t[n])| ==> Members(t[n])[k] in Members(t[n]);
    }
  }

  /** In every state of every run, an item is waiting exactly if it is suspended in one place of one
      channel, and then it has been fired and is the head of its queue; nobody waits on a woken
      channel, and nobody queues for an unlocked one. */
  lemma WaitingIsSuspendedOnce(queues: set<CmdqList>, steps: seq<SysStep>, i: CmdqItem)
    requires IsRun(Start(queues), steps)
    ensures var s := Run(Start(queues), steps);
      && (i in s.waiting <==> |Places(s.table, i)| == 1)
      && (i !in s.waiting <==> Places(s.table, i) == {})
      && (i in s.waiting ==> i in s.log && IsHead(s, i))
      && (forall q, k :: q in s.lists && 0 <= k < |s.lists[q]| && s.lists[q][k] in s.waiting ==> k == 0)
      && (forall n :: n in s.table && |s.table[n].waiters| > 0 ==> !s.table[n].woken)
      && (forall n :: n in s.table && |s.table[n].lockers| > 0 ==> s.table[n].locked)
  {
    StartIsOk(queues);
    RunKeepsInv(Start(queues), steps);
    var s := Run(Start(queues), steps);
    PlacesOfSuspended(s.table, i);
    if i in s.waiting {
      var n :| n in s.table && i in Members(s.table[n]);
      var k: nat :| k < |Members(s.table[n])| && Members(s.table[n])[k] == i;
      forall p | p in Places(s.table, i) ensures p == (n, k) {
        assert p.0 in s.table && i in Members(s.table[p.0]);
      }
      assert Places(s.table, i) == {(n, k)};
    }
  }

  // ----- what an error cancels -----

  ghost predicate Before(l: seq<CmdqItem>, i: CmdqItem, j: CmdqItem) {
    exists a, b :: 0 <= a < b < |l| && l[a] == i && l[b] == j
  }

  lemma {:induction false} WithoutKeepsOrder(l: seq<CmdqItem>, g: nat, i: CmdqItem, j: CmdqItem)
    requires Before(l, i, j) && i.group != g && j.group != g
    ensures Before(Without(l, g), i, j)
  {
    var a, b :| 0 <= a < b < |l| && l[a] == i && l[b] == j;
    var m := Without(l[1..], g);
    if a > 0 {
      assert l[1..][a - 1] == i && l[1..][b - 1] == j;
      WithoutKeepsOrder(l[1..], g, i, j);
      var c, d :| 0 <= c < d < |m| && m[c] == i && m[d] == j;
      if l[0].group != g {
        assert Without(l, g)[c + 1] == i && Without(l, g)[d + 1] == j;
      }
    } else {
      WithoutFacts(l[1..], g);
      assert l[1..][b - 1] == j;
      assert j in l[1..];
      var d :| 0 <= d < |m| && m[d] == j;
      assert Without(l, g)[0] == i && Without(l, g)[d + 1] == j;
    }
  }

  /** When a command fails, exactly the later items of its queue that share its group, which must not
      be 0, are taken away, and no other queue changes. */
  lemma ErrorCancelsExactlyTheGroup(s: Sys, st: SysStep, j: CmdqItem)
    requires Inv(s) && st.Fire? && Enabled(s, st)
    requires s.lists[st.queue][0].kind.Command?
    requires Answered(s, st).ret == Error
    ensures var i, s' := s.lists[st.queue][0], Apply(s, st);
      var rest := st.hooks + s.lists[st.queue][1..];
      && (j in s'.lists[st.queue] <==> j == i || (j in rest && (j.group != i.group || i.group == 0)))
      && (forall q :: q in s.lists && q != st.queue ==> s'.lists[q] == s.lists[q])
  {
    var i := s.lists[st.queue][0];
    WithoutFacts(st.hooks + s.lists[st.queue][1..], i.group);
  }

  /** What is left behind a fired item, whatever it answered, keeps its order. */
  lemma FollowingKeepsOrder(i: CmdqItem, ret: Retval, rest: seq<CmdqItem>, j: CmdqItem, k: CmdqItem)
    requires Before(rest, j, k) && j in Following(i, ret, rest) && k in Following(i, ret, rest)
    ensures Before(Following(i, ret, rest), j, k)
  {
    WithoutFacts(rest, i.group);
    if ret == Error && i.kind.Command? && i.group != 0 {
      WithoutKeepsOrder(rest, i.group, j, k);
    }
  }

  // ----- the order of firing -----

  /** Relative to two items of one queue, i ahead of j: while both are queued they stay in that order;
      j is fired only after i has left the queue, and after i if i was fired at all. */
  ghost predicate InOrder(s: Sys, q: CmdqList, i: CmdqItem, j: CmdqItem) {
    && q in s.lists && i in s.known && j in s.known && i != j
    && (forall r :: r in s.lists && r != q ==> i !in s.lists[r] && j !in s.lists[r])
    && (i in s.lists[q] && j in s.lists[q] ==> Before(s.lists[q], i, j))
    && (j in s.log ==> i !in s.lists[q])
    && (forall a, b :: 0 <= a < |s.log| && 0 <= b < |s.log| && s.log[a] == i && s.log[b] == j ==> a < b)
  }

  lemma SpliceKeepsOrder(l: seq<CmdqItem>, at: nat, chain: seq<CmdqItem>, i: CmdqItem, j: CmdqItem)
    requires at <= |l| && Before(l, i, j)
    ensures Before(l[..at] + chain + l[at..], i, j)
  {
    var a, b :| 0 <= a < b < |l| && l[a] == i && l[b] == j;
    var m := l[..at] + chain + l[at..];
    var c := if a < at then a else a + |chain|;
    var d := if b < at then b else b + |chain|;
    assert m[c] == i && m[d] == j;
  }

  lemma TailKeepsOrder(l: seq<CmdqItem>, i: CmdqItem, j: CmdqItem)
    requires Distinct(l) && |l| > 0 && Before(l, i, j)
    ensures i in l[1..] ==> Before(l[1..], i, j)
    ensures j != l[0]
  {
    var a, b :| 0 <= a < b < |l| && l[a] == i && l[b] == j;
    if a > 0 {
      assert l[1..][a - 1] == i && l[1..][b - 1] == j;
    }
  }

  lemma FiredListKeepsOrder(head: CmdqItem, ret: Retval, hooks: seq<CmdqItem>, tail: seq<CmdqItem>, i: CmdqItem,
                            j: CmdqItem)
    requires Distinct([head] + tail) && Before([head] + tail, i, j)
    requires Distinct(hooks + tail)
    requires var f := Following(head, ret, hooks + tail); (i == head || i in f) && j in f
    ensures Before([head] + Following(head, ret, hooks + tail), i, j)
  {
    hide Following, Distinct;
    var f := Following(head, ret, hooks + tail);
    var m := [head] + f;
    if i == head {
      var b :| 0 <= b < |f| && f[b] == j;
      assert m[0] == i && m[b + 1] == j;
    } else {
      var l := [head] + tail;
      var a, b :| 0 <= a < b < |l| && l[a] == i && l[b] == j;
      assert tail[a - 1] == i && tail[b - 1] == j;
      SpliceKeepsOrder(tail, 0, hooks, i, j);
      assert tail[..0] + hooks + tail[0..] == hooks + tail;
      FollowingKeepsOrder(head, ret, hooks + tail, i, j);
      var c, d :| 0 <= c < d < |f| && f[c] == i && f[d] == j;
      assert m[c + 1] == i && m[d + 1] == j;
    }
  }

  lemma FireKeepsOrder(s: Sys, st: SysStep, q: CmdqList, i: CmdqItem, j: CmdqItem)
    requires Inv(s) && st.Fire? && Enabled(s, st) && InOrder(s, q, i, j)
    ensures InOrder(Apply(s, st), q, i, j)
  {
    hide AllHeld, TableOk, OncePerItem, Suspended, Following, Executed, Runner, HookClient, TakenAway, Before;
    FiredList(s, st);
    var l, s' := s.lists[st.queue], Apply(s, st);
    var ret := Answered(s, st).ret;
    if st.queue != q {
      assert s'.lists[q] == s.lists[q];
    } else {
      assert i in s'.lists[q] ==> i in l;
      assert j in s'.lists[q] ==> j in l;
      if i in s'.lists[q] && j in s'.lists[q] {
        TailKeepsOrder(l, i, j);
        FiredListKeepsOrder(l[0], ret, st.hooks, l[1..], i, j);
      }
    }
  }

  /** New items do not change the order. */
  lemma SplicedInOrder(s: Sys, r: CmdqList, at: nat, chain: seq<CmdqItem>, c: Client?, q: CmdqList, i: CmdqItem,
                       j: CmdqItem)
    requires Inv(s) && r in s.lists && at <= |s.lists[r]| && Fresh(s, chain) && InOrder(s, q, i, j)
    ensures InOrder(Queued(s, chain, c).(lists := s.lists[r := s.lists[r][..at] + chain + s.lists[r][at..]]), q, i, j)
  {
    hide AllHeld, TableOk, OncePerItem, Suspended, Before, LogOk;
    SpliceFacts(s, r, at, chain);
    if Before(s.lists[r], i, j) {
      SpliceKeepsOrder(s.lists[r], at, chain, i, j);
    }
  }

  lemma PopKeepsOrder(s: Sys, st: SysStep, q: CmdqList, i: CmdqItem, j: CmdqItem)
    requires Inv(s) && st.Pop? && Enabled(s, st) && InOrder(s, q, i, j)
    ensures InOrder(Apply(s, st), q, i, j)
  {
    hide Held, TableOk, OncePerItem, Suspended, LogOk;
    var l := s.lists[st.queue];
    assert l == [l[0]] + l[1..];
    if Before(l, i, j) {
      TailKeepsOrder(l, i, j);
    }
  }

  lemma StepKeepsOrder(s: Sys, st: SysStep, q: CmdqList, i: CmdqItem, j: CmdqItem)
    requires Inv(s) && Enabled(s, st) && InOrder(s, q, i, j)
    ensures InOrder(Apply(s, st), q, i, j)
  {
    hide Inv, Queued, Fired, Fresh, Held, InOrder;
    match st
    case Append(r, c, chain) =>
      var l := s.lists[r];
      assert l[..|l|] + chain + l[|l|..] == l + chain;
      SplicedInOrder(s, r, |l|, chain, c, q, i, j);
    case InsertAfter(r, at, c, chain) =>
      SplicedInOrder(s, r, at + 1, chain, c, q, i, j);
    case Fire(_, _, _, _) => FireKeepsOrder(s, st, q, i, j);
    case Pop(r) => PopKeepsOrder(s, st, q, i, j);
    case FlushChannels => SameInOrder(s, Apply(s, st), q, i, j);
    case Hold(_) => SameInOrder(s, Apply(s, st), q, i, j);
    case Release(_) => SameInOrder(s, Apply(s, st), q, i, j);
  }

  lemma SameInOrder(s: Sys, s': Sys, q: CmdqList, i: CmdqItem, j: CmdqItem)
    requires InOrder(s, q, i, j) && s'.lists == s.lists && s'.known == s.known && s'.log == s.log
    ensures InOrder(s', q, i, j)
  {
  }

  lemma {:induction false} RunKeepsOrder(s: Sys, steps: seq<SysStep>, q: CmdqList, i: CmdqItem, j: CmdqItem)
    requires Inv(s) && IsRun(s, steps) && InOrder(s, q, i, j)
    ensures InOrder(Run(s, steps), q, i, j)
    decreases |steps|
  {
    if |steps| > 0 {
      RunKeepsOrder(s, steps[..|steps| - 1], q, i, j);
      RunKeepsInv(s, steps[..|steps| - 1]);
      StepKeepsOrder(Run(s, steps[..|steps| - 1]), steps[|steps| - 1], q, i, j);
    }
  }

  /** Whatever is queued, inserted, cancelled or suspended in between: an item is fired at most once,
      and of two items that were ever in one queue, the later is fired only after the earlier has left
      it, and after the earlier was fired if that ever happens. */
  lemma FiredOnceInOrder(queues: set<CmdqList>, first: seq<SysStep>, later: seq<SysStep>, q: CmdqList, i: CmdqItem,
                         j: CmdqItem)
    requires IsRun(Start(queues), first) && IsRun(Run(Start(queues), first), later)
    requires q in queues && q in Run(Start(queues), first).lists && Before(Run(Start(queues), first).lists[q], i, j)
    ensures var s := Run(Run(Start(queues), first), later);
      && Distinct(s.log)
      && q in s.lists && (j in s.log ==> i !in s.lists[q])
      && (forall a, b :: 0 <= a < |s.log| && 0 <= b < |s.log| && s.log[a] == i && s.log[b] == j ==> a < b)
  {
    StartIsOk(queues);
    RunKeepsInv(Start(queues), first);
    var s := Run(Start(queues), first);
    RunKeepsInv(s, later);
    BeforeIsInOrder(s, q, i, j);
    RunKeepsOrder(s, later, q, i, j);
  }

  lemma BeforeIsInOrder(s: Sys, q: CmdqList, i: CmdqItem, j: CmdqItem)
    requires Inv(s) && q in s.lists && Before(s.lists[q], i, j)
    ensures InOrder(s, q, i, j)
  {
    var l := s.lists[q];
    var a, b :| 0 <= a < b < |l| && l[a] == i && l[b] == j;
    assert i in l && j in l;
    assert l[b] !in s.log;
  }

  // ----- how often a queue fires -----

  /** The firings a list can still cause when no hook list has more than h items. */
  ghost function Weight(l: seq<CmdqItem>, fired: set<CmdqItem>, h: nat): nat {
    if |l| == 0 then 0
    else (if l[0] in fired then 0 else if Quiet(l[0]) then 1 else 1 + h) + Weight(l[1..], fired, h)
  }

  lemma {:induction false} WeightOfConcat(l: seq<CmdqItem>, m: seq<CmdqItem>, fired: set<CmdqItem>, h: nat)
    ensures Weight(l + m, fired, h) == Weight(l, fired, h) + Weight(m, fired, h)
  {
    if |l| == 0 {
      assert l + m == m;
    } else {
      WeightOfConcat(l[1..], m, fired, h);
      assert (l + m)[1..] == l[1..] + m;
    }
  }

  lemma {:induction false} WeightOfQuiet(l: seq<CmdqItem>, fired: set<CmdqItem>, h: nat)
    requires forall i :: i in l ==> Quiet(i)
    ensures Weight(l, fired, h) <= |l|
  {
    if |l| > 0 {
      WeightOfQuiet(l[1..], fired, h);
    }
  }

  lemma {:induction false} WeightOfWithout(l: seq<CmdqItem>, g: nat, fired: set<CmdqItem>, h: nat)
    ensures Weight(Without(l, g), fired, h) <= Weight(l, fired, h)
  {
    if |l| > 0 {
      WeightOfWithout(l[1..], g, fired, h);
      if l[0].group != g {
        assert ([l[0]] + Without(l[1..], g))[1..] == Without(l[1..], g);
      }
    }
  }

  lemma {:induction false} WeightOfMoreFired(l: seq<CmdqItem>, i: CmdqItem, fired: set<CmdqItem>, h: nat)
    requires i !in l
    ensures Weight(l, fired + {i}, h) == Weight(l, fired, h) == Weight(l, fired - {i}, h)
  {
    if |l| > 0 {
      WeightOfMoreFired(l[1..], i, fired, h);
    }
  }

  lemma {:induction false} WeightBound(l: seq<CmdqItem>, fired: set<CmdqItem>, h: nat)
    ensures Weight(l, fired, h) <= |l| * (1 + h)
  {
    if |l| > 0 {
      WeightBound(l[1..], fired, h);
      assert |l| * (1 + h) == (1 + h) + |l[1..]| * (1 + h);
    }
  }

  /** Firing a head costs at least one unit of weight, hooks and all. */
  lemma FireUsesWeight(s: Sys, st: SysStep, h: nat)
    requires Inv(s) && st.Fire? && Enabled(s, st) && |st.hooks| <= h
    ensures Weight(Apply(s, st).lists[st.queue], Elements(Apply(s, st).log), h)
      < Weight(s.lists[st.queue], Elements(s.log), h)
  {
    var l := s.lists[st.queue];
    var i, rest := l[0], st.hooks + l[1..];
    FiredList(s, st);
    FiringUsesWeight(i, Answered(s, st).ret, st.hooks, l[1..], Elements(s.log), h);
    assert Elements(s.log + [i]) == Elements(s.log) + {i};
  }

  lemma FiringUsesWeight(i: CmdqItem, ret: Retval, hooks: seq<CmdqItem>, tail: seq<CmdqItem>, fired: set<CmdqItem>,
                         h: nat)
    requires i !in fired && i !in Following(i, ret, hooks + tail) && |hooks| <= h
    requires (Quiet(i) ==> hooks == []) && forall x :: x in hooks ==> Quiet(x)
    ensures Weight([i] + Following(i, ret, hooks + tail), fired + {i}, h) < Weight([i] + tail, fired, h)
  {
    var rest := hooks + tail;
    var f := Following(i, ret, rest);
    assert ([i] + f)[1..] == f && ([i] + tail)[1..] == tail;
    WeightOfMoreFired(f, i, fired, h);
    WeightOfWithout(rest, i.group, fired, h);
    WeightOfConcat(hooks, tail, fired, h);
    WeightOfQuiet(hooks, fired, h);
  }

  lemma PopKeepsWeight(s: Sys, st: SysStep, h: nat)
    requires Inv(s) && st.Pop? && Enabled(s, st)
    ensures Weight(Apply(s, st).lists[st.queue], Elements(Apply(s, st).log), h)
      == Weight(s.lists[st.queue], Elements(s.log), h)
  {
    var l := s.lists[st.queue];
    assert [l[0]] + l[1..] == l;
    HeadIsNotBehind(l[0], l[1..]);
    WeightOfMoreFired(l[1..], l[0], Elements(s.log), h);
  }

  /** Only heads of q are fired and popped, and no hook list has more than h items. */
  ghost predicate Drains(steps: seq<SysStep>, q: CmdqList, h: nat) {
    forall k :: 0 <= k < |steps| ==>
      (steps[k].Fire? && steps[k].queue == q && |steps[k].hooks| <= h) || (steps[k].Pop? && steps[k].queue == q)
  }

  lemma {:induction false} DrainingUsesWeight(s: Sys, steps: seq<SysStep>, q: CmdqList, h: nat)
    requires Inv(s) && q in s.lists && IsRun(s, steps) && Drains(steps, q, h)
    ensures var s' := Run(s, steps);
      && q in s'.lists
      && |s'.log| - |s.log| + Weight(s'.lists[q], Elements(s'.log), h) <= Weight(s.lists[q], Elements(s.log), h)
    decreases |steps|
  {
    if |steps| > 0 {
      var init, st := steps[..|steps| - 1], steps[|steps| - 1];
      DrainingUsesWeight(s, init, q, h);
      RunKeepsInv(s, init);
      var m := Run(s, init);
      if st.Fire? { FireUsesWeight(m, st, h); } else { PopKeepsWeight(m, st, h); }
    }
  }

  /** Running a queue of n items, none of which queues anything itself, fires at most n * (1 + h)
      items, hooks included, when no hook list has more than h items: a hook's own items run no hooks. */
  lemma FiringsAreBounded(s: Sys, steps: seq<SysStep>, q: CmdqList, h: nat)
    requires Inv(s) && q in s.lists && IsRun(s, steps) && Drains(steps, q, h)
    ensures |Run(s, steps).log| - |s.log| <= |s.lists[q]| * (1 + h)
  {
    DrainingUsesWeight(s, steps, q, h);
    WeightBound(s.lists[q], Elements(s.log), h);
  }

  /** One turn of the loop that runs a queue: the head is popped, or fired, or both. */
  ghost predicate IsTurn(steps: seq<SysStep>, q: CmdqList) {
    || (|steps| == 1 && (steps[0].Fire? || steps[0].Pop?) && steps[0].queue == q)
    || (|steps| == 2 && steps[0].Fire? && steps[1].Pop? && steps[0].queue == steps[1].queue == q)
  }

  ghost function WeightOf(s: Sys, q: CmdqList, h: nat): nat
    requires q in s.lists
  {
    Weight(s.lists[q], Elements(s.log), h)
  }

  /** A firing uses weight, and a pop shortens the queue. */
  lemma DrainingStep(s: Sys, st: SysStep, q: CmdqList, h: nat)
    requires Inv(s) && Enabled(s, st) && q in s.lists
    requires (st.Fire? && st.queue == q && |st.hooks| <= h) || (st.Pop? && st.queue == q)
    ensures var s' := Apply(s, st);
      && Inv(s') && q in s'.lists
      && (st.Fire? ==> WeightOf(s', q, h) < WeightOf(s, q, h))
      && (st.Pop? ==> WeightOf(s', q, h) == WeightOf(s, q, h) && |s'.lists[q]| < |s.lists[q]|)
  {
    hide Inv, Weight, Held, AllHeld, Following, TakenAway, Executed, Runner, HookClient, Queued;
    StepKeepsInv(s, st);
    if st.Fire? { FireUsesWeight(s, st, h); } else { PopKeepsWeight(s, st, h); }
  }

  /** Every turn makes progress: it uses weight or shortens the queue. */
  lemma TurnsProgress(s: Sys, steps: seq<SysStep>, q: CmdqList, h: nat)
    requires Inv(s) && IsTurn(steps, q) && Drains(steps, q, h) && IsRun(s, steps) && q in s.lists
    ensures var s' := Run(s, steps);
      && Inv(s') && q in s'.lists
      && var w, w' := Weight(s.lists[q], Elements(s.log), h), Weight(s'.lists[q], Elements(s'.log), h);
         w' < w || (w' == w && |s'.lists[q]| < |s.lists[q]|)
  {
    hide Inv, Apply, Enabled, Run, IsRun, Weight, Elements;
    var st := steps[0];
    if |steps| == 1 {
      assert steps == [st];
      RunOfOne(s, st);
      DrainingStep(s, st, q, h);
    } else {
      assert steps == [st, steps[1]];
      RunOfTwo(s, st, steps[1]);
      DrainingStep(s, st, q, h);
      DrainingStep(Apply(s, st), steps[1], q, h);
    }
  }

  /** How many items are fired. */
  ghost function Firings(steps: seq<SysStep>): nat {
    if |steps| == 0 then 0 else Firings(steps[..|steps| - 1]) + if steps[|steps| - 1].Fire? then 1 else 0
  }

  /** The last step fires an item that then stays. */
  predicate EndsFiring(steps: seq<SysStep>) {
    |steps| > 0 && steps[|steps| - 1].Fire?
  }

  lemma FiringsOfOne(st: SysStep)
    ensures Firings([st]) == if st.Fire? then 1 else 0
  {
    assert [st][..0] == [];
  }

  lemma {:induction false} FiringsCompose(first: seq<SysStep>, second: seq<SysStep>)
    ensures Firings(first + second) == Firings(first) + Firings(second)
  {
    if |second| == 0 {
      assert first + second == first;
    } else {
      var n := |second| - 1;
      FiringsCompose(first, second[..n]);
      assert (first + second)[..|first| + n] == first + second[..n];
    }
  }

  /** What is left to do in a state: its weight, and then the length of the queue. */
  ghost function Left(s: Sys, q: CmdqList, h: nat): (nat, nat)
    requires q in s.lists
  {
    (Weight(s.lists[q], Elements(s.log), h), |s.lists[q]|)
  }

  lemma NoTurnTaken(s: Sys, q: CmdqList, h: nat)
    ensures IsRun(s, []) && Run(s, []) == s && Drains([], q, h)
  {
  }

  /** A run that only takes turns at q, one turn longer. */
  lemma TurnTaken(from: Sys, trace: seq<SysStep>, steps: seq<SysStep>, q: CmdqList, h: nat)
    requires Inv(from) && IsRun(from, trace) && Drains(trace, q, h)
    requires IsRun(Run(from, trace), steps) && IsTurn(steps, q) && Drains(steps, q, h) && q in Run(from, trace).lists
    ensures IsRun(from, trace + steps) && Drains(trace + steps, q, h)
    ensures Run(from, trace + steps) == Run(Run(from, trace), steps) && q in Run(from, trace + steps).lists
    ensures var (w, n), (w', n') := Left(Run(from, trace), q, h), Left(Run(from, trace + steps), q, h);
      w' < w || (w' == w && n' < n)
  {
    hide Enabled, Apply, Inv, IsRun, Run, IsTurn, Weight;
    RunKeepsInv(from, trace);
    TurnsProgress(Run(from, trace), steps, q, h);
    RunsCompose(from, trace, steps);
  }
}
