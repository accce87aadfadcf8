/** The reference counts of clients, states and command lists over the runs of the queue protocol: they
    are the numbers of those who hold a reference. */
module QueueRefs {
  import opened Common
  import opened WaitChannelSpec
  import opened CmdLists
  import opened CmdqItems
  import opened QueueProtocol

  lemma HeldOnce(i: CmdqItem, c: Client?, x: Counted)
    ensures Held(i, c)[x] <= 1
  {
  }

  /** The items in queues that hold something. */
  ghost function Holders(s: Sys, x: Counted): set<CmdqItem> {
    set q, i | q in s.lists && i in s.lists[q] && x in Held(i, ClientIn(s.clients, i)) :: i
  }

  /** The count of something is the number of items in queues that hold it, and of its other holders. */
  ghost predicate CountsOk(s: Sys, x: Counted) {
    s.refs[x] == s.outside[x] + |Holders(s, x)|
  }

  /** All counts are right. */
  ghost predicate RefsOk(s: Sys) {
    && (forall x :: x in s.refs ==> CountsOk(s, x)) && s.outside <= s.refs
    && (forall q, i, x :: q in s.lists && i in s.lists[q] && x in Held(i, ClientIn(s.clients, i)) ==> x in s.refs)
  }

  lemma RefsOkAt(s: Sys, x: Counted)
    requires RefsOk(s)
    ensures CountsOk(s, x)
  {
    if x !in s.refs {
      assert Holders(s, x) == {} && s.outside[x] == 0;
    }
  }

  lemma RefsOkIf(s: Sys)
    requires forall x :: CountsOk(s, x)
    ensures RefsOk(s)
  {
    forall x | x in s.outside ensures s.outside[x] <= s.refs[x] {
      assert CountsOk(s, x);
    }
    forall q, i, x | q in s.lists && i in s.lists[q] && x in Held(i, ClientIn(s.clients, i)) ensures x in s.refs {
      assert i in Holders(s, x);
      assert CountsOk(s, x);
    }
  }

  // ----- what lists hold -----

  ghost function HoldersIn(l: seq<CmdqItem>, clients: Clients, x: Counted): set<CmdqItem> {
    set i | i in l && x in Held(i, ClientIn(clients, i))
  }

  lemma {:induction false} AllHeldCounts(l: seq<CmdqItem>, clients: Clients, x: Counted)
    requires Distinct(l)
    ensures AllHeld(l, clients)[x] == |HoldersIn(l, clients, x)|
  {
    hide Held;
    if |l| == 0 {
      assert HoldersIn(l, clients, x) == {};
    } else {
      var first, rest := l[0], HoldersIn(l[1..], clients, x);
      AllHeldCounts(l[1..], clients, x);
      HeldOnce(first, ClientIn(clients, first), x);
      assert first !in l[1..];
      FirstHolder(l, clients, x);
      if x in Held(first, ClientIn(clients, first)) {
        assert |{first} + rest| == 1 + |rest|;
      }
    }
  }

  lemma FirstHolder(l: seq<CmdqItem>, clients: Clients, x: Counted)
    requires |l| > 0
    ensures HoldersIn(l, clients, x)
      == (if x in Held(l[0], ClientIn(clients, l[0])) then {l[0]} else {}) + HoldersIn(l[1..], clients, x)
  {
    hide Held;
    assert l == [l[0]] + l[1..];
  }

  lemma {:induction false} AllHeldAppend(l: seq<CmdqItem>, m: seq<CmdqItem>, clients: Clients)
    ensures AllHeld(l + m, clients) == AllHeld(l, clients) + AllHeld(m, clients)
  {
    hide Held;
    if |l| == 0 {
      assert l + m == m;
    } else {
      AllHeldAppend(l[1..], m, clients);
      assert (l + m)[0] == l[0] && (l + m)[1..] == l[1..] + m;
      assert AllHeld(l + m, clients) == Held(l[0], ClientIn(clients, l[0])) + AllHeld(l[1..] + m, clients);
    }
  }

  lemma AllHeldOne(i: CmdqItem, l: seq<CmdqItem>, clients: Clients)
    ensures AllHeld([i] + l, clients) == Held(i, ClientIn(clients, i)) + AllHeld(l, clients)
  {
    assert ([i] + l)[1..] == l;
  }

  lemma {:induction false} AllHeldSplit(l: seq<CmdqItem>, g: nat, clients: Clients)
    ensures AllHeld(l, clients) == AllHeld(Without(l, g), clients) + AllHeld(OfGroup(l, g), clients)
  {
    hide Held;
    if |l| > 0 {
      AllHeldSplit(l[1..], g, clients);
      AllHeldOne(l[0], Without(l[1..], g), clients);
      AllHeldOne(l[0], OfGroup(l[1..], g), clients);
      assert l[0].group != g ==> OfGroup(l, g) == OfGroup(l[1..], g);
    }
  }

  lemma {:induction false} SameClients(l: seq<CmdqItem>, clients: Clients, other: Clients)
    requires forall i :: i in l ==> ClientIn(clients, i) == ClientIn(other, i)
    ensures AllHeld(l, clients) == AllHeld(l, other)
  {
    hide Held;
    if |l| > 0 {
      SameClients(l[1..], clients, other);
    }
  }

  // ----- what steps do to the counts -----

  ghost function HoldersElsewhere(s: Sys, q: CmdqList, x: Counted): set<CmdqItem> {
    set r, i | r in s.lists && r != q && i in s.lists[r] && x in Held(i, ClientIn(s.clients, i)) :: i
  }

  lemma HoldersOf(s: Sys, q: CmdqList, x: Counted)
    requires ListsOk(s) && q in s.lists
    ensures |Holders(s, x)| == |HoldersElsewhere(s, q, x)| + AllHeld(s.lists[q], s.clients)[x]
  {
    hide Held;
    AllHeldCounts(s.lists[q], s.clients, x);
    var others, mine := HoldersElsewhere(s, q, x), HoldersIn(s.lists[q], s.clients, x);
    assert Holders(s, x) == others + mine;
    assert others !! mine;
  }

  /** Queued items keep the clients they are queued for. */
  ghost predicate KeepClients(s: Sys, s': Sys) {
    forall i :: i in s.known ==> ClientIn(s'.clients, i) == ClientIn(s.clients, i)
  }

  /** When one queue's list is replaced, the holders in the other queues stay. */
  lemma ReplacedHolders(s: Sys, s': Sys, q: CmdqList, l: seq<CmdqItem>, x: Counted)
    requires ListsOk(s) && ListsOk(s') && q in s.lists && s'.lists == s.lists[q := l] && KeepClients(s, s')
    ensures |Holders(s', x)| + AllHeld(s.lists[q], s'.clients)[x] == |Holders(s, x)| + AllHeld(l, s'.clients)[x]
  {
    hide Held;
    HoldersOf(s, q, x);
    HoldersOf(s', q, x);
    SameClients(s.lists[q], s.clients, s'.clients);
    assert HoldersElsewhere(s, q, x) == HoldersElsewhere(s', q, x) by {
      forall r | r in s.lists && r != q ensures r in s'.lists && s'.lists[r] == s.lists[r] {
      }
    }
  }

  /** What the items of a queue hold is counted. */
  lemma HeldIsCounted(s: Sys, q: CmdqList)
    requires ListsOk(s) && RefsOk(s) && q in s.lists
    ensures AllHeld(s.lists[q], s.clients) <= s.refs
  {
    hide Held, Holders;
    forall x | x in AllHeld(s.lists[q], s.clients) ensures AllHeld(s.lists[q], s.clients)[x] <= s.refs[x] {
      HoldersOf(s, q, x);
      RefsOkAt(s, x);
    }
  }

  /** The head and the items behind it hold the same, before and after it fires, but for the items that
      were inserted and those that were taken away. */
  lemma FiredHeld(i: CmdqItem, ret: Retval, hooks: seq<CmdqItem>, behind: seq<CmdqItem>, clients: Clients)
    ensures AllHeld([i] + Following(i, ret, hooks + behind), clients)
      + AllHeld(TakenAway(i, ret, hooks + behind), clients)
      == AllHeld([i] + behind, clients) + AllHeld(hooks, clients)
  {
    hide Held, Without, OfGroup, AllHeld;
    var rest := hooks + behind;
    AllHeldOne(i, Following(i, ret, rest), clients);
    AllHeldOne(i, behind, clients);
    AllHeldAppend(hooks, behind, clients);
    AllHeldSplit(rest, i.group, clients);
    NothingHeld(clients);
    var x, all := Held(i, ClientIn(clients, i)), AllHeld(rest, clients);
    assert AllHeld(Following(i, ret, rest), clients) + AllHeld(TakenAway(i, ret, rest), clients) == all;
    assert x + AllHeld(behind, clients) + AllHeld(hooks, clients) == x + all;
  }

  lemma NothingHeld(clients: Clients)
    ensures AllHeld([], clients) == multiset{}
  {
  }

  lemma QueuedKeepsClients(s: Sys, chain: seq<CmdqItem>, c: Client?)
    requires Fresh(s, chain)
    ensures KeepClients(s, Queued(s, chain, c))
  {
  }

  lemma FireCounts(s: Sys, st: SysStep, x: Counted)
    requires Inv(s) && st.Fire? && Enabled(s, st) && CountsOk(s, x)
    ensures CountsOk(Apply(s, st), x)
  {
    hide Held, Executed, Without, OfGroup, Holders, AllHeld, Inv, HookClient, Runner, Following, TakenAway, KeepClients;
    var q, l, s' := st.queue, s.lists[st.queue], Apply(s, st);
    var i, rest, ret := l[0], st.hooks + l[1..], Answered(s, st).ret;
    FireKeepsInv(s, st);
    InvLists(s);
    InvLists(s');
    QueuedKeepsClients(s, st.hooks, HookClient(s, st));
    SameKeepsClients(s, Queued(s, st.hooks, HookClient(s, st)), s');
    HoldersOf(s, q, x);
    SameListHeld(s, s', q);
    ReplacedHolders(s, s', q, [i] + Following(i, ret, rest), x);
    FiredHeld(i, ret, st.hooks, l[1..], s'.clients);
    assert l == [i] + l[1..];
    var now, hooks := AllHeld([i] + Following(i, ret, rest), s'.clients), AllHeld(st.hooks, s'.clients);
    var taken := AllHeld(TakenAway(i, ret, rest), s'.clients);
    assert now[x] + taken[x] == (now + taken)[x] == AllHeld(l, s'.clients)[x] + hooks[x];
    assert s'.refs[x] == s.refs[x] + hooks[x] - taken[x];
  }

  lemma SameKeepsClients(s: Sys, t: Sys, s': Sys)
    requires KeepClients(s, t) && s'.clients == t.clients
    ensures KeepClients(s, s')
  {
  }

  lemma SameListHeld(s: Sys, s': Sys, q: CmdqList)
    requires ListsOk(s) && q in s.lists && KeepClients(s, s')
    ensures AllHeld(s.lists[q], s.clients) == AllHeld(s.lists[q], s'.clients)
  {
    SameClients(s.lists[q], s.clients, s'.clients);
  }

  lemma InvLists(s: Sys)
    requires Inv(s)
    ensures ListsOk(s)
  {
  }

  /** New items are counted. */
  lemma SpliceCounts(s: Sys, q: CmdqList, at: nat, chain: seq<CmdqItem>, c: Client?, x: Counted)
    requires Inv(s) && q in s.lists && at <= |s.lists[q]| && Fresh(s, chain) && CountsOk(s, x)
    requires at > 0 || |s.lists[q]| == 0
    ensures CountsOk(Queued(s, chain, c).(lists := s.lists[q := s.lists[q][..at] + chain + s.lists[q][at..]]), x)
  {
    hide Held, Holders, AllHeld, Inv, KeepClients;
    var l := s.lists[q];
    var s' := Queued(s, chain, c).(lists := s.lists[q := l[..at] + chain + l[at..]]);
    SpliceKeepsInv(s, q, at, chain, c);
    InvLists(s);
    InvLists(s');
    QueuedKeepsClients(s, chain, c);
    SameKeepsClients(s, Queued(s, chain, c), s');
    ReplacedHolders(s, s', q, l[..at] + chain + l[at..], x);
    AllHeldAppend(l[..at] + chain, l[at..], s'.clients);
    AllHeldAppend(l[..at], chain, s'.clients);
    AllHeldAppend(l[..at], l[at..], s'.clients);
    assert l == l[..at] + l[at..];
  }

  lemma PopCounts(s: Sys, st: SysStep, x: Counted)
    requires Inv(s) && st.Pop? && Enabled(s, st) && CountsOk(s, x)
    ensures CountsOk(Apply(s, st), x)
  {
    hide Held, Holders, AllHeld, Inv;
    var q, l, s' := st.queue, s.lists[st.queue], Apply(s, st);
    PopKeepsInv(s, st);
    InvLists(s);
    InvLists(s');
    HoldersOf(s, q, x);
    ReplacedHolders(s, s', q, l[1..], x);
    AllHeldOne(l[0], l[1..], s.clients);
    assert l == [l[0]] + l[1..];
  }

  lemma StepCounts(s: Sys, st: SysStep, x: Counted)
    requires Inv(s) && Enabled(s, st) && CountsOk(s, x)
    ensures CountsOk(Apply(s, st), x)
  {
    hide Held, Inv, Holders, AllHeld, Queued, Fired, Fresh;
    match st
    case Append(q, c, chain) =>
      var l := s.lists[q];
      assert l[..|l|] + chain + l[|l|..] == l + chain;
      SpliceCounts(s, q, |l|, chain, c, x);
    case InsertAfter(q, at, c, chain) => SpliceCounts(s, q, at + 1, chain, c, x);
    case Fire(_, _, _, _) => FireCounts(s, st, x);
    case Pop(_) => PopCounts(s, st, x);
    case FlushChannels => SameHolders(s, Apply(s, st), x);
    case Hold(_) => SameHolders(s, Apply(s, st), x);
    case Release(_) => SameHolders(s, Apply(s, st), x);
  }

  lemma SameHolders(s: Sys, s': Sys, x: Counted)
    requires s.lists == s'.lists && s.clients == s'.clients
    ensures Holders(s, x) == Holders(s', x)
  {
  }

  lemma StepKeepsRefs(s: Sys, st: SysStep)
    requires Inv(s) && RefsOk(s) && Enabled(s, st)
    ensures RefsOk(Apply(s, st))
  {
    hide Inv, RefsOk, CountsOk, Enabled, Apply;
    forall x ensures CountsOk(Apply(s, st), x) {
      RefsOkAt(s, x);
      StepCounts(s, st, x);
    }
    RefsOkIf(Apply(s, st));
  }

  lemma {:induction false} RunKeepsRefs(s: Sys, steps: seq<SysStep>)
    requires Inv(s) && RefsOk(s) && IsRun(s, steps)
    ensures RefsOk(QueueProtocol.Run(s, steps))
    decreases |steps|
  {
    hide Inv, RefsOk, Enabled, Apply;
    if |steps| > 0 {
      var init := steps[..|steps| - 1];
      RunKeepsInv(s, init);
      RunKeepsRefs(s, init);
      StepKeepsRefs(QueueProtocol.Run(s, init), steps[|steps| - 1]);
    }
  }

  lemma StartCounts(queues: set<CmdqList>)
    ensures RefsOk(Start(queues))
  {
  }

  /** In every state of every run from an idle server, the references to a client, a state or a command
      list are as many as the queued items that hold it and its holders outside the queues. */
  lemma CountsAreHolders(queues: set<CmdqList>, steps: seq<SysStep>, x: Counted)
    requires IsRun(Start(queues), steps)
    ensures var s := QueueProtocol.Run(Start(queues), steps); s.refs[x] == s.outside[x] + |Holders(s, x)|
  {
    hide Inv, RefsOk, Holders, IsRun, QueueProtocol.Run;
    StartIsOk(queues);
    StartCounts(queues);
    RunKeepsRefs(Start(queues), steps);
    RefsOkAt(QueueProtocol.Run(Start(queues), steps), x);
  }
}
