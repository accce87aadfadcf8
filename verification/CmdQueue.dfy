/** The command queues: lists of items that are spliced, fired and removed in place, together with the
    wait channels and the reference counts. Every method takes steps of the protocol. */
module CmdQueue {
  import opened Common
  import opened WaitChannelSpec
  import opened CmdLists
  import opened CmdqItems
  import opened QueueProtocol
  import opened QueueRefs
  import WaitFor

  /** What the rest of the server decides about one firing: the client it finds for an item that has
      none, whether the item's targets resolve, and whether a target is left for the after-hook. */
  datatype Surroundings = Surroundings(found: Client?, resolved: bool, hookTarget: bool)

  // ----- what command lists turn into -----

  /** What an item is made for. */
  datatype Shape = Shape(kind: Kind, group: nat, cmdlist: CmdList?)

  function Shapes(chain: seq<CmdqItem>): (ss: seq<Shape>)
    ensures |ss| == |chain|
  {
    if |chain| == 0 then []
    else var i := chain[|chain| - 1]; Shapes(chain[..|chain| - 1]) + [Shape(i.kind, i.group, i.cmdlist)]
  }

  ghost function CmdShapes(l: CmdList, cmds: seq<Cmd>): (ss: seq<Shape>)
    reads cmds`group
    ensures |ss| == |cmds|
  {
    if |cmds| == 0 then []
    else
      var c := cmds[|cmds| - 1];
      CmdShapes(l, cmds[..|cmds| - 1]) + [Shape(Command(c.entry), c.group, l)]
  }

  /** One item for every command, with the command's group; an empty list becomes one callback. */
  ghost function ListShapes(l: CmdList): (ss: seq<Shape>)
    reads l`list, l.list`group
    ensures |ss| == if |l.list| == 0 then 1 else |l.list|
  {
    if |l.list| == 0 then [Shape(Callback(Normal), 0, null)] else CmdShapes(l, l.list)
  }

  function Joined<T>(parts: seq<seq<T>>): seq<T> {
    if |parts| == 0 then [] else Joined(parts[..|parts| - 1]) + parts[|parts| - 1]
  }

  /** How many items the lists of a hook turn into. */
  ghost function HookSize(ls: seq<CmdList>): nat
    reads ls`list
  {
    if |ls| == 0 then 0
    else
      var l := ls[|ls| - 1];
      HookSize(ls[..|ls| - 1]) + if |l.list| == 0 then 1 else |l.list|
  }

  /** The items that the lists of a hook turn into, one list after the other. */
  ghost function HookShapes(ls: seq<CmdList>): seq<Shape>
    reads ls`list, CommandsOf(ls)`group
  {
    if |ls| == 0 then []
    else
      assert forall c :: c in CommandsOf(ls[..|ls| - 1]) ==> c in CommandsOf(ls);
      assert forall c :: c in ls[|ls| - 1].list ==> c in CommandsOf(ls);
      HookShapes(ls[..|ls| - 1]) + ListShapes(ls[|ls| - 1])
  }

  ghost function CommandsOf(ls: seq<CmdList>): set<Cmd>
    reads ls`list
  {
    set l, c | l in ls && c in l.list :: c
  }

  /** What the items of every hook are made for, by its name. */
  type HookTable = map<string, seq<Shape>>

  /** The hooks of a command that has been executed. */
  function HooksOf(entry: Entry, noHooks: bool, ret: Retval, target: bool, table: HookTable): seq<Shape> {
    if noHooks then []
    else if ret == Error then ItemsIn(table, "command-error")
    else if entry.afterHook && target then ItemsIn(table, "after-" + entry.name)
    else []
  }

  /** The hooks that a step inserts behind the item that it fires. */
  ghost predicate HasHooks(st: SysStep, item: CmdqItem, ret: Retval, target: bool, table: HookTable) {
    && st.Fire? && (item.kind.Callback? ==> st.hooks == [])
    && (item.kind.Command? ==> AreHooks(st.hooks, item, item.kind.entry, ret, target, table))
  }

  predicate AreHooks(chain: seq<CmdqItem>, item: CmdqItem, entry: Entry, ret: Retval, target: bool, table: HookTable) {
    Shapes(chain) == HooksOf(entry, item.state.noHooks, ret, target, table)
  }

  /** A command that runs without hooks has none. Another has that of errors after an error, and its own if it
      has one and there is a target for it; and none of these is anything if it has no option. */
  lemma HooksMean(st: SysStep, item: CmdqItem, ret: Retval, target: bool, table: HookTable)
    requires HasHooks(st, item, ret, target, table)
    ensures item.kind.Callback? || item.state.noHooks ==> st.hooks == []
    ensures item.kind.Command? && !item.state.noHooks && ret == Error ==>
      Shapes(st.hooks) == if "command-error" in table then table["command-error"] else []
    ensures item.kind.Command? && !item.state.noHooks && ret != Error ==>
      var name := "after-" + item.kind.entry.name;
      Shapes(st.hooks) == if item.kind.entry.afterHook && target && name in table then table[name] else []
  {
  }

  function ItemsIn(table: HookTable, name: string): seq<Shape> {
    if name in table then table[name] else []
  }

  lemma {:induction false} GetParts(ls: seq<CmdList>) returns (parts: seq<seq<Shape>>)
    ensures |parts| == |ls| && (forall k :: 0 <= k < |ls| ==> parts[k] == ListShapes(ls[k]))
    ensures |Joined(parts)| == HookSize(ls) && Joined(parts) == HookShapes(ls)
  {
    parts := [];
    if |ls| > 0 {
      var n := |ls| - 1;
      var init := GetParts(ls[..n]);
      parts := init + [ListShapes(ls[n])];
      assert parts[..n] == init;
    }
  }

  /** What items are made for, one by one. */
  lemma {:induction false} ShapesMean(chain: seq<CmdqItem>)
    ensures forall k :: 0 <= k < |chain| ==> Shapes(chain)[k] == Shape(chain[k].kind, chain[k].group, chain[k].cmdlist)
  {
    if |chain| > 0 {
      ShapesMean(chain[..|chain| - 1]);
    }
  }

  /** A list turns into an item for each of its commands, in their order, or into one callback that does
      nothing. */
  lemma ListMeans(l: CmdList)
    ensures |l.list| == 0 ==> ListShapes(l) == [Shape(Callback(Normal), 0, null)]
    ensures |l.list| > 0 ==>
      && |ListShapes(l)| == |l.list|
      && forall k :: 0 <= k < |l.list| ==>
        ListShapes(l)[k] == Shape(Command(l.list[k].entry), l.list[k].group, l)
  {
    CommandsMean(l, l.list);
  }

  lemma {:induction false} CommandsMean(l: CmdList, cmds: seq<Cmd>)
    ensures forall k :: 0 <= k < |cmds| ==> CmdShapes(l, cmds)[k] == Shape(Command(cmds[k].entry), cmds[k].group, l)
  {
    if |cmds| > 0 {
      CommandsMean(l, cmds[..|cmds| - 1]);
    }
  }

  /** The lists of a hook follow one another. */
  lemma {:induction false} HookMeans(ls: seq<CmdList>, ms: seq<CmdList>)
    ensures HookShapes([]) == []
    ensures forall l :: l in ls ==> HookShapes([l]) == ListShapes(l)
    ensures HookShapes(ls + ms) == HookShapes(ls) + HookShapes(ms)
  {
    hide ListShapes;
    if |ms| == 0 {
      assert ls + ms == ls;
    } else {
      var n := |ms| - 1;
      HookMeans(ls, ms[..n]);
      assert (ls + ms)[..|ls| + n] == ls + ms[..n] && (ls + ms)[|ls| + n] == ms[n];
    }
    forall l | l in ls ensures HookShapes([l]) == ListShapes(l) {
      assert [l][..0] == [];
    }
  }

  lemma ShapesOfOne(chain: seq<CmdqItem>, i: CmdqItem)
    ensures Shapes(chain + [i]) == Shapes(chain) + [Shape(i.kind, i.group, i.cmdlist)]
  {
    assert (chain + [i])[..|chain|] == chain;
  }

  lemma {:induction false} ShapesOfBoth(chain: seq<CmdqItem>, more: seq<CmdqItem>)
    ensures Shapes(chain + more) == Shapes(chain) + Shapes(more)
  {
    if |more| == 0 {
      assert chain + more == chain;
    } else {
      var n := |more| - 1;
      ShapesOfBoth(chain, more[..n]);
      ShapesOfOne(chain + more[..n], more[n]);
      assert chain + more == chain + more[..n] + [more[n]];
    }
  }

  lemma CmdShapesOfOne(l: CmdList, cmds: seq<Cmd>, k: nat)
    requires k < |cmds|
    ensures CmdShapes(l, cmds[..k + 1]) == CmdShapes(l, cmds[..k]) + [Shape(Command(cmds[k].entry), cmds[k].group, l)]
  {
    assert cmds[..k + 1][..k] == cmds[..k];
  }

  lemma NoShapes(l: CmdList)
    ensures Shapes([]) == [] == CmdShapes(l, [])
  {
  }

  // ----- what new items hold -----

  /** What new items hold before they are queued. */
  ghost function Linked(chain: seq<CmdqItem>): multiset<Counted> {
    AllHeld(chain, map[])
  }

  ghost function Copies(x: Counted, n: nat): multiset<Counted> {
    multiset{}[x := n]
  }

  ghost function ClientCopies(c: Client?, n: nat): multiset<Counted> {
    if c == null then multiset{} else Copies(OfClient(c), n)
  }

  /** Items of one command list. */
  lemma {:induction false} LinkedToList(chain: seq<CmdqItem>, state: CmdqState, l: CmdList)
    requires forall i :: i in chain ==> i.state == state && i.cmdlist == l
    ensures Linked(chain) == Copies(OfState(state), |chain|) + Copies(OfList(l), |chain|)
  {
    if |chain| > 0 {
      LinkedToList(chain[1..], state, l);
    }
  }

  /** Items that are queued for one client. */
  lemma {:induction false} HeldFor(chain: seq<CmdqItem>, clients: Clients, c: Client?)
    requires forall i :: i in chain ==> ClientIn(clients, i) == c
    ensures AllHeld(chain, clients) == Linked(chain) + ClientCopies(c, |chain|)
  {
    if |chain| > 0 {
      HeldFor(chain[1..], clients, c);
    }
  }

  lemma LinkedBoth(chain: seq<CmdqItem>, more: seq<CmdqItem>, c: Client?)
    ensures Linked(chain + more) + ClientCopies(c, |chain + more|)
      == Linked(chain) + ClientCopies(c, |chain|) + (Linked(more) + ClientCopies(c, |more|))
  {
    AllHeldAppend(chain, more, map[]);
  }

  // ----- making items -----

  /** Are these new items, made from a command list? An empty list gives one callback with its own state. */
  ghost predicate MadeFrom(chain: seq<CmdqItem>, first: CmdqItem, cmdlist: CmdList, state: CmdqState)
    reads chain`next, chain`fired, chain`waiting, cmdlist`list, cmdlist.list`group
  {
    && IsChain(first, chain) && Unqueued(chain) && Shapes(chain) == ListShapes(cmdlist)
    && (|cmdlist.list| > 0 ==> forall i :: i in chain ==> i.state == state && i.cmdlist == cmdlist)
    && (|cmdlist.list| == 0 ==> |chain| == 1 && first.cmdlist == null && first.kind.Callback?)
  }

  /** An item for one command of a list. */
  method NewCommand(cmdlist: CmdList, k: nat, state: CmdqState) returns (item: CmdqItem)
    requires k < |cmdlist.list|
    modifies state`references, cmdlist`references
    ensures fresh(item) && item.next == null && !item.fired && !item.waiting && item.state == state
    ensures item.cmdlist == cmdlist
    ensures item.kind == Command(cmdlist.list[k].entry) && item.group == cmdlist.list[k].group
    ensures state.references == old(state.references) + 1 && cmdlist.references == old(cmdlist.references) + 1
  {
    item := new CmdqItem(Command(cmdlist.list[k].entry), cmdlist.list[k].group, state, cmdlist);
    state.references := state.references + 1;
    cmdlist.references := cmdlist.references + 1;
  }

  /** The item for a list without commands. */
  method EmptyCommand(cmdlist: CmdList, ghost state: CmdqState) returns (first: CmdqItem)
    requires |cmdlist.list| == 0
    ensures fresh(first) && MadeFrom([first], first, cmdlist, state)
    ensures fresh(first.state) && first.state.references == 1
  {
    hide CmdShapes, Shapes;
    var own := new CmdqState(false);
    first := new CmdqItem(Callback(Normal), 0, own, null);
    ShapesOfOne([], first);
    NoShapes(cmdlist);
    assert [] + [first] == [first];
  }

  /** Turn a command list into a chain of items that share a state; an empty list becomes one callback
      with a state of its own. */
  method GetCommand(cmdlist: CmdList, state: CmdqState) returns (first: CmdqItem, ghost chain: seq<CmdqItem>)
    modifies state`references, cmdlist`references
    ensures fresh(chain) && MadeFrom(chain, first, cmdlist, state)
    ensures |cmdlist.list| == 0 ==> fresh(first.state) && first.state.references == 1
    ensures |cmdlist.list| == 0 ==>
      state.references == old(state.references) && cmdlist.references == old(cmdlist.references)
    ensures |cmdlist.list| > 0 ==>
      state.references == old(state.references) + |chain| && cmdlist.references == old(cmdlist.references) + |chain|
  {
    hide CmdShapes, Shapes;
    if |cmdlist.list| == 0 {
      first := EmptyCommand(cmdlist, state);
      chain := [first];
      return;
    }
    first := NewCommand(cmdlist, 0, state);
    var last, k := first, 1;
    chain := [first];
    NoShapes(cmdlist);
    ShapesOfOne([], first);
    CmdShapesOfOne(cmdlist, cmdlist.list, 0);
    assert [] + [first] == chain && cmdlist.list[..0] == [];
    while k < |cmdlist.list|
      invariant 1 <= k == |chain| <= |cmdlist.list| && fresh(chain)
      invariant Linking(chain, first, last, cmdlist, k, state)
      invariant state.references == old(state.references) + k && cmdlist.references == old(cmdlist.references) + k
    {
      last := LinkCommand(cmdlist, k, state, first, last, chain);
      chain := chain + [last];
      k := k + 1;
    }
    assert cmdlist.list[..k] == cmdlist.list;
  }

  /** The items of the first k commands of a list, linked up to the last of them. */
  ghost predicate Linking(chain: seq<CmdqItem>, first: CmdqItem, last: CmdqItem, cmdlist: CmdList, k: nat,
                          state: CmdqState)
    reads chain`next, chain`fired, chain`waiting, cmdlist`list, cmdlist.list`group
  {
    && |chain| == k <= |cmdlist.list| && IsChain(first, chain) && last == chain[k - 1]
    && Shapes(chain) == CmdShapes(cmdlist, cmdlist.list[..k])
    && forall i :: i in chain ==> !i.fired && !i.waiting && i.state == state && i.cmdlist == cmdlist
  }

  /** Link an item for the next command behind the last. */
  method LinkCommand(cmdlist: CmdList, k: nat, state: CmdqState, ghost first: CmdqItem, last: CmdqItem,
                     ghost chain: seq<CmdqItem>)
    returns (item: CmdqItem)
    requires k < |cmdlist.list| && Linking(chain, first, last, cmdlist, k, state)
    modifies last`next, state`references, cmdlist`references
    ensures fresh(item) && Linking(chain + [item], first, item, cmdlist, k + 1, state)
    ensures state.references == old(state.references) + 1 && cmdlist.references == old(cmdlist.references) + 1
  {
    hide CmdShapes, Shapes;
    item := NewCommand(cmdlist, k, state);
    ShapesOfOne(chain, item);
    CmdShapesOfOne(cmdlist, cmdlist.list, k);
    last.next := item;
  }

  // ----- the queues -----

  /** The state after items were inserted behind the head of a queue for a client. */
  ghost function Hooked(s: Sys, q: CmdqList, chain: seq<CmdqItem>, c: Client?): Sys
    requires q in s.lists && |s.lists[q]| > 0
  {
    var l := s.lists[q];
    Queued(s, chain, c).(lists := s.lists[q := [l[0]] + chain + l[1..]])
  }

  /** The state after items were inserted behind an item of a queue for a client. */
  ghost function InsertedAfter(s: Sys, q: CmdqList, at: nat, c: Client?, chain: seq<CmdqItem>): Sys
    requires q in s.lists && at < |s.lists[q]|
  {
    var l := s.lists[q];
    Queued(s, chain, c).(lists := s.lists[q := l[..at + 1] + chain + l[at + 1..]])
  }

  class CommandQueues {
    const global: CmdqList
    /** The command lists of the hook options, by hook name. */
    const hooks: map<string, seq<CmdList>>
    var number: nat
    ghost var scope: Scope

    constructor (hooks: map<string, seq<CmdList>>, ghost clients: set<Client>, ghost states: set<CmdqState>,
                 ghost lists: set<CmdList>)
      ensures this.hooks == hooks && scope == Scope(clients, states, lists) && fresh(global) && global.list == []
    {
      global := new CmdqList();
      this.hooks := hooks;
      number := 0;
      scope := Scope(clients, states, lists);
    }

    function QueueOf(c: Client?): CmdqList {
      if c == null then global else c.queue
    }

    // ----- the objects and the state of the protocol -----

    ghost predicate ListsMatch(s: Sys)
      reads s.lists.Keys`list, s.known`queue
    {
      && ListsOk(s) && global in s.lists
      && (forall q :: q in s.lists ==> q.list == s.lists[q])
      && (forall q, i :: q in s.lists && i in s.lists[q] ==> i.queue == q)
    }

    ghost predicate ItemsMatch(s: Sys)
      reads s.known`fired, s.known`waiting, s.known`client
    {
      && s.clients.Keys == s.known && s.waiting <= s.known && (forall i :: i in s.log ==> i in s.known)
      && (forall i :: i in s.known ==>
        (i.fired <==> i in s.log) && (i.waiting <==> i in s.waiting) && i.client == s.clients[i])
    }

    ghost predicate RefsMatch(s: Sys)
      reads `scope, scope.clients`references, scope.states`references, scope.lists`references
    {
      && scope.Counts(s.refs)
      && (forall i :: i in s.known && i in s.clients ==> scope.Covers(i, s.clients[i]))
    }

    /** The objects are in a state of the protocol. */
    ghost predicate Matches(s: Sys)
      reads s.lists.Keys`list, s.known`queue, s.known`fired, s.known`waiting, s.known`client
      reads `scope, scope.clients`references, scope.states`references, scope.lists`references
    {
      ListsMatch(s) && ItemsMatch(s) && RefsMatch(s)
    }

    // ----- hooks -----

    /** No hook turns into more than h items. */
    ghost predicate HooksWithin(h: nat)
      reads HookLists()`list
    {
      forall n :: n in hooks ==> (assert forall l :: l in hooks[n] ==> l in HookLists(); HookSize(hooks[n]) <= h)
    }

    /** What the hooks turn into, none of them into more than h items. */
    ghost predicate HooksAre(h: nat, table: HookTable)
      reads HookLists()`list, HookCommands()`group
    {
      && table.Keys == hooks.Keys
      && forall n :: n in hooks ==>
        (assert forall l :: l in hooks[n] ==> l in HookLists();
        assert forall c :: c in CommandsOf(hooks[n]) ==> c in HookCommands();
        HookSize(hooks[n]) <= h && table[n] == HookShapes(hooks[n]))
    }

    ghost function HookCommands(): set<Cmd>
      reads HookLists()`list
    {
      set l, c | l in HookLists() && c in l.list :: c
    }

    lemma GetTable(h: nat) returns (table: HookTable)
      requires HooksWithin(h)
      ensures HooksAre(h, table)
    {
      hide HookShapes, HookSize;
      table := map n | n in hooks :: HookShapes(hooks[n]);
    }

    ghost function HookLists(): set<CmdList> {
      set n, l | n in hooks && l in hooks[n] :: l
    }

    /** Nothing is followed any less, and only new states more. */
    ghost predicate Wider(before: Scope)
      reads `scope
    {
      scope.clients == before.clients && scope.lists == before.lists && before.states <= scope.states
    }

    /** Make the items of a command list; their references are followed. */
    method MakeItems(cmdlist: CmdList, state: CmdqState, ghost m: multiset<Counted>)
      returns (first: CmdqItem, ghost chain: seq<CmdqItem>)
      requires scope.Counts(m) && state in scope.states && cmdlist in scope.lists
      modifies `scope, state`references, cmdlist`references
      ensures fresh(chain) && MadeFrom(chain, first, cmdlist, state)
      ensures Wider(old(scope)) && forall x :: x in scope.states ==> x in old(scope.states) || fresh(x)
      ensures scope.Counts(m + Linked(chain)) && AllCovered(chain)
    {
      hide Held, Shapes, CmdShapes, Distinct;
      first, chain := GetCommand(cmdlist, state);
      if |cmdlist.list| == 0 {
        scope := scope.(states := scope.states + {first.state});
        OneLinked(first);
        assert chain == [first];
      } else {
        LinkedToList(chain, state, cmdlist);
      }
    }

    lemma OneLinked(i: CmdqItem)
      requires i.cmdlist == null
      ensures Linked([i]) == multiset{OfState(i.state)}
    {
      AllHeldOne(i, [], map[]);
      assert [i] + [] == [i];
    }

    /** New items in a queue, for a client. */
    ghost predicate QueuedFor(chain: seq<CmdqItem>, q: CmdqList, c: Client?)
      reads chain`fired, chain`waiting, chain`client, chain`queue
    {
      forall i :: i in chain ==> !i.fired && !i.waiting && i.client == c && i.queue == q
    }

    /** Items that a hook has queued for a client. */
    ghost predicate FromHook(chain: seq<CmdqItem>, q: CmdqList, c: Client?)
      reads chain`fired, chain`waiting, chain`client, chain`queue
    {
      QueuedFor(chain, q, c) && forall i :: i in chain ==> Quiet(i)
    }

    ghost predicate AllCovered(chain: seq<CmdqItem>)
      reads `scope
    {
      forall i :: i in chain ==> scope.Covers(i, null)
    }

    /** Insert new items behind an item of a queue, whose place in it is at, for its client; front is the
        queue up to that item, and back the rest of it. */
    method InsertItems(queue: CmdqList, at: nat, after: CmdqItem, first: CmdqItem, ghost chain: seq<CmdqItem>,
                       ghost front: seq<CmdqItem>, ghost back: seq<CmdqItem>, ghost m: multiset<Counted>)
      returns (last: CmdqItem, place: nat)
      requires queue.Valid() && queue.list == front + back && |front| == at + 1 && front[at] == after
      requires IsChain(first, chain) && forall i :: i in chain ==> i !in queue.list
      requires ClientSet(after.client) <= scope.clients && scope.Counts(m)
      modifies queue`list, chain, after`next, ClientSet(after.client)`references
      ensures queue.Valid() && queue.list == front + chain + back && after.client == old(after.client)
      ensures forall i :: i in chain ==>
        i.client == after.client && i.queue == queue && i.fired == old(i.fired) && i.waiting == old(i.waiting)
      ensures |front + chain| == place + 1 && (front + chain)[place] == last && last in chain
      ensures scope.Counts(m + ClientCopies(after.client, |chain|))
    {
      last, place := queue.InsertAfter(at, after, first, chain);
      assert (front + back)[..at + 1] == front && (front + back)[at + 1..] == back;
    }

    /** Queue the commands of a list behind an item of a queue. */
    method InsertList(queue: CmdqList, at: nat, after: CmdqItem, cmdlist: CmdList, state: CmdqState,
                      ghost front: seq<CmdqItem>, ghost back: seq<CmdqItem>, ghost m: multiset<Counted>)
      returns (last: CmdqItem, place: nat, ghost chain: seq<CmdqItem>)
      requires queue.Valid() && queue.list == front + back && |front| == at + 1 && front[at] == after
      requires state in scope.states && cmdlist in scope.lists && ClientSet(after.client) <= scope.clients
      requires scope.Counts(m)
      modifies `scope, queue`list, after`next, state`references, cmdlist`references, ClientSet(after.client)`references
      ensures queue.Valid() && queue.list == front + chain + back && after.client == old(after.client)
      ensures fresh(chain) && Distinct(chain) && QueuedFor(chain, queue, after.client) && AllCovered(chain)
      ensures Shapes(chain) == ListShapes(cmdlist) && (state.noHooks ==> forall i :: i in chain ==> Quiet(i))
      ensures |front + chain| == place + 1 && (front + chain)[place] == last && last in chain
      ensures Wider(old(scope)) && forall x :: x in scope.states ==> x in old(scope.states) || fresh(x)
      ensures scope.Counts(m + (Linked(chain) + ClientCopies(after.client, |chain|)))
    {
      hide Held, AllHeld, Shapes, Scope.Counts;
      var first;
      first, chain := MakeItems(cmdlist, state, m);
      last, place := InsertItems(queue, at, after, first, chain, front, back, m + Linked(chain));
      MultisetSum(m, Linked(chain), ClientCopies(after.client, |chain|));
    }

    lemma MultisetSum<T>(a: multiset<T>, b: multiset<T>, c: multiset<T>)
      ensures a + b + c == a + (b + c)
    {
    }

    /** The items that a hook has queued so far, and the last of them and its place, or the head's. */
    ghost predicate InProgress(queue: CmdqList, item: CmdqItem, chain: seq<CmdqItem>, rest: seq<CmdqItem>,
                               last: CmdqItem, at: nat, c: Client?, m: multiset<Counted>)
      reads queue, queue.list`queue, chain`fired, chain`waiting, chain`client, chain`queue, item`client, last`client
      reads `scope, scope.clients`references, scope.states`references, scope.lists`references
    {
      && queue.Valid() && queue.list == [item] + chain + rest && item.client == last.client == c
      && |chain| == at && last == ([item] + chain)[at] && ClientSet(c) <= scope.clients
      && FromHook(chain, queue, c) && AllCovered(chain)
      && scope.Counts(m + (Linked(chain) + ClientCopies(c, |chain|)))
    }

    /** Queue one more list of a hook. */
    method InsertNextList(queue: CmdqList, item: CmdqItem, after: CmdqItem, at: nat, cmdlist: CmdList, state: CmdqState,
                          ghost chain: seq<CmdqItem>, ghost rest: seq<CmdqItem>, ghost m: multiset<Counted>)
      returns (last: CmdqItem, place: nat, ghost more: seq<CmdqItem>)
      requires InProgress(queue, item, chain, rest, after, at, after.client, m)
      requires state.noHooks && state in scope.states && cmdlist in scope.lists
      modifies `scope, queue`list, after`next, state`references, cmdlist`references, ClientSet(after.client)`references
      ensures fresh(more) && Shapes(more) == ListShapes(cmdlist) && last in more && after.client == old(after.client)
      ensures Wider(old(scope)) && forall x :: x in scope.states ==> x in old(scope.states) || fresh(x)
      ensures InProgress(queue, item, chain + more, rest, last, place, after.client, m)
    {
      hide Held, AllHeld, Shapes, CmdShapes, ListShapes, Scope.Counts, Scope.Covers, Linked, ClientCopies, Quiet;
      ghost var front, was := [item] + chain, scope;
      assert forall i :: i in chain ==> was.Covers(i, null);
      last, place, more := InsertList(queue, at, after, cmdlist, state, front, rest,
        m + (Linked(chain) + ClientCopies(after.client, |chain|)));
      StillCovered(chain, was);
      CountsGrow(chain, more, after.client, m);
      assert front + more == [item] + (chain + more);
    }

    /** Queue all lists of a hook behind the head of a queue. */
    method InsertHookLists(queue: CmdqList, item: CmdqItem, ls: seq<CmdList>, state: CmdqState,
                           ghost rest: seq<CmdqItem>, ghost m: multiset<Counted>, ghost parts: seq<seq<Shape>>)
      returns (ghost chain: seq<CmdqItem>)
      requires queue.Valid() && queue.list == [item] + rest && state.noHooks && state in scope.states
      requires (forall l :: l in ls ==> l in scope.lists) && ClientSet(item.client) <= scope.clients && scope.Counts(m)
      requires |parts| == |ls| && forall k :: 0 <= k < |ls| ==> parts[k] == ListShapes(ls[k])
      modifies `scope, queue`list, item`next, state`references, scope.lists`references
      modifies ClientSet(item.client)`references
      ensures queue.Valid() && queue.list == [item] + chain + rest && item.client == old(item.client)
      ensures fresh(chain) && FromHook(chain, queue, item.client) && AllCovered(chain)
      ensures Shapes(chain) == Joined(parts) && forall k :: 0 <= k < |ls| ==> parts[k] == ListShapes(ls[k])
      ensures Wider(old(scope)) && forall x :: x in scope.states ==> x in old(scope.states) || fresh(x)
      ensures scope.Counts(m + (Linked(chain) + ClientCopies(item.client, |chain|)))
    {
      hide Held, AllHeld, Shapes, CmdShapes, Joined, Scope.Counts, Scope.Covers, Linked, ClientCopies, Quiet;
      var last, k, at := item, 0, 0;
      chain := [];
      ghost var c := item.client;
      NothingFromHook(m, c);
      assert [item] + [] == [item];
      while k < |ls|
        invariant 0 <= k <= |ls| && InProgress(queue, item, chain, rest, last, at, c, m)
        invariant fresh(chain) && Shapes(chain) == Joined(parts[..k])
        invariant forall j :: 0 <= j < |ls| ==> parts[j] == ListShapes(ls[j])
        invariant Wider(old(scope)) && forall x :: x in scope.states ==> x in old(scope.states) || fresh(x)
      {
        ghost var more;
        assert last == item || last in chain;
        last, at, more := InsertNextList(queue, item, last, at, ls[k], state, chain, rest, m);
        HookGrows(chain, more, parts, k);
        chain := chain + more;
        k := k + 1;
      }
      assert parts[..k] == parts;
    }

    lemma HookGrows(chain: seq<CmdqItem>, more: seq<CmdqItem>, parts: seq<seq<Shape>>, k: nat)
      requires k < |parts| && Shapes(chain) == Joined(parts[..k]) && Shapes(more) == parts[k]
      ensures Shapes(chain + more) == Joined(parts[..k + 1])
    {
      hide Shapes;
      assert parts[..k + 1][..k] == parts[..k];
      ShapesOfBoth(chain, more);
    }

    lemma CountsGrow(chain: seq<CmdqItem>, more: seq<CmdqItem>, c: Client?, m: multiset<Counted>)
      ensures m + (Linked(chain) + ClientCopies(c, |chain|)) + (Linked(more) + ClientCopies(c, |more|))
        == m + (Linked(chain + more) + ClientCopies(c, |chain + more|))
    {
      hide Linked, ClientCopies;
      LinkedBoth(chain, more, c);
      MultisetSum(m, Linked(chain) + ClientCopies(c, |chain|), Linked(more) + ClientCopies(c, |more|));
    }

    lemma StillCovered(chain: seq<CmdqItem>, before: Scope)
      requires Wider(before) && forall i :: i in chain ==> before.Covers(i, null)
      ensures AllCovered(chain)
    {
    }

    lemma NothingFromHook(m: multiset<Counted>, c: Client?)
      ensures Shapes([]) == Joined<Shape>([]) && m == m + (Linked([]) + ClientCopies(c, 0))
    {
    }

    // ----- hooks as the protocol sees them -----

    /** What the lists of all other queues are. */
    ghost predicate OthersMatch(s: Sys, queue: CmdqList)
      reads (s.lists.Keys - {queue})`list, s.known`queue
    {
      && ListsOk(s) && global in s.lists && queue in s.lists
      && (forall q :: q in s.lists && q != queue ==> q.list == s.lists[q])
      && (forall q, i :: q in s.lists && q != queue && i in s.lists[q] ==> i.queue == q)
    }

    /** A queue has new items. */
    lemma MoreLists(s: Sys, s': Sys, queue: CmdqList, chain: seq<CmdqItem>)
      requires OthersMatch(s, queue) && queue.Valid() && Fresh(s, chain)
      requires s'.lists == s.lists[queue := queue.list] && s'.known == s.known + Elements(chain)
      requires forall i :: i in queue.list ==> i in s.lists[queue] || i in chain
      ensures ListsMatch(s')
    {
      ReplaceList(s, queue, queue.list, s.known + Elements(chain));
    }

    lemma MoreItems(s: Sys, s': Sys, queue: CmdqList, chain: seq<CmdqItem>, c: Client?)
      requires ItemsMatch(s) && Fresh(s, chain) && QueuedFor(chain, queue, c)
      requires s' == Queued(s, chain, c).(lists := s'.lists)
      ensures ItemsMatch(s')
    {
    }

    lemma MoreRefs(s: Sys, s': Sys, chain: seq<CmdqItem>, c: Client?)
      requires Fresh(s, chain) && s.clients.Keys == s.known && s' == Queued(s, chain, c).(lists := s'.lists)
      requires scope.Counts(s.refs + (Linked(chain) + ClientCopies(c, |chain|))) && ClientSet(c) <= scope.clients
      requires AllCovered(chain) && forall i :: i in s.known && i in s.clients ==> scope.Covers(i, s.clients[i])
      ensures RefsMatch(s')
    {
      hide Held, AllHeld, Linked, ClientCopies, Scope.Counts;
      assert forall i :: i in chain ==> ClientIn(s'.clients, i) == c;
      HeldFor(chain, s'.clients, c);
    }

    lemma HookedList(s: Sys, queue: CmdqList, item: CmdqItem, rest: seq<CmdqItem>, chain: seq<CmdqItem>, c: Client?)
      requires queue in s.lists && s.lists[queue] == [item] + rest
      ensures var s', l := Hooked(s, queue, chain, c), [item] + chain + rest;
        && s'.lists == s.lists[queue := l] && s'.known == s.known + Elements(chain)
        && s' == Queued(s, chain, c).(lists := s'.lists)
        && forall i :: i in l ==> i in s.lists[queue] || i in chain
    {
      assert ([item] + rest)[1..] == rest;
      assert forall i :: i in rest ==> i in [item] + rest;
    }

    lemma HookedNone(s: Sys, queue: CmdqList, c: Client?)
      requires queue in s.lists && |s.lists[queue]| > 0
      ensures Hooked(s, queue, [], c) == s
    {
      var l := s.lists[queue];
      assert [l[0]] + [] + l[1..] == l;
      assert s.clients + (map i: CmdqItem | i in [] :: c) == s.clients;
    }

    lemma QueueIsValid(s: Sys, queue: CmdqList)
      requires ListsMatch(s) && queue in s.lists
      ensures queue.Valid() && queue.list == s.lists[queue] && OthersMatch(s, queue)
    {
    }

    /** Queue all lists of a hook behind the head of a queue, with a state of their own. */
    method RunHook(queue: CmdqList, item: CmdqItem, ls: seq<CmdList>, ghost rest: seq<CmdqItem>,
                   ghost m: multiset<Counted>)
      returns (ghost chain: seq<CmdqItem>, ghost parts: seq<seq<Shape>>)
      requires queue.Valid() && queue.list == [item] + rest
      requires (forall l :: l in ls ==> l in scope.lists) && ClientSet(item.client) <= scope.clients && scope.Counts(m)
      modifies `scope, queue`list, item`next, scope.lists`references, ClientSet(item.client)`references
      ensures queue.Valid() && queue.list == [item] + chain + rest && item.client == old(item.client)
      ensures fresh(chain) && Distinct(chain) && FromHook(chain, queue, item.client) && AllCovered(chain)
      ensures |parts| == |ls| && (forall k :: 0 <= k < |ls| ==> parts[k] == ListShapes(ls[k]))
      ensures Shapes(chain) == Joined(parts) == old(HookShapes(ls)) && |chain| == HookSize(ls)
      ensures Wider(old(scope)) && forall x :: x in scope.states ==> x in old(scope.states) || fresh(x)
      ensures scope.Counts(m + (Linked(chain) + ClientCopies(item.client, |chain|)))
    {
      hide Held, AllHeld, Shapes, ListShapes, CmdShapes, Joined, Linked, ClientCopies, Scope.Counts;
      hide Scope.Covers, Quiet;
      parts := GetParts(ls);
      var state := NewState(true, m);
      chain := InsertHookLists(queue, item, ls, state, rest, m + multiset{OfState(state)}, parts);
      ghost var more := Linked(chain) + ClientCopies(item.client, |chain|);
      MultisetTake(m, multiset{OfState(state)}, more);
      FreeState(state, m + multiset{OfState(state)} + more);
      HookIsDistinct(item, chain, rest);
    }

    lemma MultisetTake<T>(m: multiset<T>, a: multiset<T>, b: multiset<T>)
      ensures a <= m + a + b && m + a + b - a == m + b
    {
    }

    /** A new state, with one reference. */
    method NewState(noHooks: bool, ghost m: multiset<Counted>) returns (state: CmdqState)
      requires scope.Counts(m)
      modifies `scope
      ensures fresh(state) && state.noHooks == noHooks && scope == old(scope).(states := old(scope).states + {state})
      ensures scope.Counts(m + multiset{OfState(state)})
    {
      state := new CmdqState(noHooks);
      scope := scope.(states := scope.states + {state});
    }

    /** Drop one reference to a state. */
    method FreeState(state: CmdqState, ghost m: multiset<Counted>)
      requires scope.Counts(m) && state in scope.states && OfState(state) in m
      modifies state`references
      ensures scope.Counts(m - multiset{OfState(state)})
    {
      state.references := state.references - 1;
    }

    lemma HookIsDistinct(item: CmdqItem, chain: seq<CmdqItem>, rest: seq<CmdqItem>)
      requires Distinct([item] + chain + rest)
      ensures Distinct(chain)
    {
      var l := [item] + chain + rest;
      forall j, k | 0 <= j < k < |chain| ensures chain[j] != chain[k] {
        assert l[j + 1] == chain[j] && l[k + 1] == chain[k];
      }
    }

    /** Queue the lists of a hook, as the protocol sees it. */
    method QueueHook(queue: CmdqList, item: CmdqItem, ls: seq<CmdList>, ghost s: Sys, ghost rest: seq<CmdqItem>)
      returns (ghost chain: seq<CmdqItem>, ghost parts: seq<seq<Shape>>)
      requires Matches(s) && queue in s.lists && s.lists[queue] == [item] + rest && item in s.known
      requires forall l :: l in ls ==> l in scope.lists
      modifies `scope, queue`list, item`next
      modifies scope.clients`references, scope.lists`references
      ensures Matches(Hooked(s, queue, chain, s.clients[item]))
      ensures Fresh(s, chain) && fresh(chain) && |chain| == HookSize(ls) && forall i :: i in chain ==> Quiet(i)
      ensures Wider(old(scope)) && forall x :: x in scope.states ==> x in old(scope.states) || fresh(x)
      ensures |parts| == |ls| && (forall k :: 0 <= k < |parts| ==> parts[k] == ListShapes(ls[k]))
      ensures Shapes(chain) == Joined(parts) == old(HookShapes(ls))
    {
      hide Held, AllHeld, Shapes, CmdShapes, Joined, Linked, ClientCopies, Hooked, ListsOk, Scope.Counts;
      hide CmdqList.Valid, ListShapes, HookSize, HookShapes;
      ghost var c, was := s.clients[item], scope;
      QueueIsValid(s, queue);
      chain, parts := RunHook(queue, item, ls, rest, s.refs);
      assert Fresh(s, chain);
      ghost var s' := Hooked(s, queue, chain, c);
      HookedList(s, queue, item, rest, chain, c);
      MoreLists(s, s', queue, chain);
      MoreItems(s, s', queue, chain, c);
      MoreRefs(s, s', chain, c);
    }

    /** Queue the commands of a hook behind the head of a queue. Nothing is queued if the head runs
        without hooks or the hook has no option. */
    method InsertHook(queue: CmdqList, item: CmdqItem, name: string, ghost h: nat, ghost table: HookTable,
                      ghost s: Sys, ghost rest: seq<CmdqItem>)
      returns (ghost chain: seq<CmdqItem>, ghost parts: seq<seq<Shape>>)
      requires Matches(s) && queue in s.lists && s.lists[queue] == [item] + rest && item in s.known && item in s.clients
      requires HooksAre(h, table) && HookLists() <= scope.lists
      modifies `scope, queue`list, item`next
      modifies scope.clients`references, scope.lists`references
      ensures Matches(Hooked(s, queue, chain, s.clients[item]))
      ensures Fresh(s, chain) && fresh(chain) && |chain| <= h && forall i :: i in chain ==> Quiet(i)
      ensures Wider(old(scope)) && forall x :: x in scope.states ==> x in old(scope.states) || fresh(x)
      ensures item.state.noHooks || name !in hooks ==> chain == []
      ensures !item.state.noHooks && name in hooks ==>
        (|parts| == |hooks[name]| && (forall k :: 0 <= k < |parts| ==> parts[k] == ListShapes(hooks[name][k]))
        && Shapes(chain) == Joined(parts))
      ensures Shapes(chain) == if item.state.noHooks then [] else ItemsIn(table, name)
    {
      hide Shapes, CmdShapes, Joined, Hooked, ListShapes, Matches, HookShapes;
      NoItems();
      chain, parts := [], [];
      if item.state.noHooks || name !in hooks {
        HookedNone(s, queue, s.clients[item]);
        return;
      }
      assert forall l :: l in hooks[name] ==> l in HookLists();
      chain, parts := QueueHook(queue, item, hooks[name], s, rest);
    }

    lemma NoItems()
      ensures Shapes([]) == []
    {
    }

    // ----- other changes, as the protocol sees them -----

    /** Let an item have another client for a while. */
    method SetClient(item: CmdqItem, c: Client?, ghost s: Sys)
      requires Matches(s) && item in s.known && ClientSet(c) <= scope.clients
      modifies item`client
      ensures Matches(s.(clients := s.clients[item := c])) && item.client == c
    {
      hide Distinct, Scope.Counts;
      item.client := c;
    }

    /** Let the head of a queue have another client, which leaves the hooks what they are. */
    method ChangeClient(item: CmdqItem, c: Client?, ghost h: nat, ghost table: HookTable, ghost s: Sys)
      requires Matches(s) && item in s.known && ClientSet(c) <= scope.clients && HooksAre(h, table)
      modifies item`client
      ensures Matches(s.(clients := s.clients[item := c])) && item.client == c && HooksAre(h, table)
    {
      hide Matches, HookShapes, HookSize;
      ghost var cmds := HookCommands();
      SetClient(item, c, s);
      assert HookCommands() == cmds;
    }

    lemma LessHeld(s: Sys, queue: CmdqList, item: CmdqItem, rest: seq<CmdqItem>)
      requires AllHeld([item] + rest, s.clients) <= s.refs
      ensures AllHeld(OfGroup(rest, item.group), s.clients) <= s.refs && Held(item, ClientIn(s.clients, item)) <= s.refs
    {
      hide Held, AllHeld, OfGroup, Without;
      AllHeldOne(item, rest, s.clients);
      AllHeldSplit(rest, item.group, s.clients);
      LessOf(Held(item, ClientIn(s.clients, item)), AllHeld(Without(rest, item.group), s.clients),
        AllHeld(OfGroup(rest, item.group), s.clients), s.refs);
    }

    lemma LessOf<T>(a: multiset<T>, b: multiset<T>, c: multiset<T>, m: multiset<T>)
      requires a + (b + c) <= m
      ensures a <= m && c <= m
    {
      assert forall x :: x in a ==> a[x] <= (a + (b + c))[x];
      assert forall x :: x in c ==> c[x] <= (a + (b + c))[x];
    }

    /** One queue has another list, and the references are others. */
    lemma Replaced(s: Sys, queue: CmdqList, l: seq<CmdqItem>, refs: multiset<Counted>)
      requires OthersMatch(s, queue) && ItemsMatch(s) && queue.Valid() && queue.list == l
      requires forall i :: i in l ==> i in s.lists[queue]
      requires scope.Counts(refs) && forall i :: i in s.known && i in s.clients ==> scope.Covers(i, s.clients[i])
      ensures Matches(s.(lists := s.lists[queue := l], refs := refs))
    {
      hide Scope.Counts, Scope.Covers;
      ReplaceList(s, queue, l, s.known);
    }

    /** Every item of a queue is counted for its client. */
    lemma ClientsOf(s: Sys, queue: CmdqList)
      requires Matches(s) && queue in s.lists
      ensures forall i :: i in s.lists[queue] ==>
        i in s.known && ClientIn(s.clients, i) == i.client && scope.Covers(i, i.client)
    {
      hide Scope.Counts, Scope.Covers;
    }

    /** Remove the items that share the group of the head of a queue. */
    method RemoveGroup(queue: CmdqList, item: CmdqItem, ghost s: Sys, ghost rest: seq<CmdqItem>)
      requires Matches(s) && queue in s.lists && s.lists[queue] == [item] + rest
      requires AllHeld(s.lists[queue], s.clients) <= s.refs
      modifies queue`list, scope.clients`references, scope.states`references, scope.lists`references
      ensures Matches(if item.group == 0 then s else GroupRemoved(s, queue, item, rest))
    {
      hide Held, AllHeld, OfGroup, Without, Scope.Counts, Scope.Covers, ListsOk, CmdqList.Valid;
      QueueIsValid(s, queue);
      LessHeld(s, queue, item, rest);
      ClientsOf(s, queue);
      queue.RemoveGroup(item, rest, s.clients, scope, s.refs);
      if item.group == 0 {
        assert s.lists[queue := [item] + rest] == s.lists;
        Replaced(s, queue, [item] + rest, s.refs);
      } else {
        WithoutFacts(rest, item.group);
        Replaced(s, queue, [item] + Without(rest, item.group), s.refs - AllHeld(OfGroup(rest, item.group), s.clients));
      }
    }

    lemma InQueue(queue: CmdqList, item: CmdqItem, rest: seq<CmdqItem>)
      requires queue.Valid() && queue.list == [item] + rest
      ensures item in queue.list && (forall i :: i in rest ==> i in queue.list && i.queue == queue) && Distinct(rest)
    {
      HeadIsNotBehind(item, rest);
      assert queue.list[0] == item;
    }

    lemma ValidList(queue: CmdqList)
      requires Distinct(queue.list) && forall i :: i in queue.list ==> i.queue == queue
      ensures queue.Valid()
    {
    }

    /** Remove the head of a queue. */
    method RemoveHead(queue: CmdqList, item: CmdqItem, ghost s: Sys, ghost rest: seq<CmdqItem>)
      requires Matches(s) && queue in s.lists && s.lists[queue] == [item] + rest
      requires AllHeld(s.lists[queue], s.clients) <= s.refs
      modifies queue`list, scope.clients`references, scope.states`references, scope.lists`references
      ensures Matches(s.(lists := s.lists[queue := rest], refs := s.refs - Held(item, ClientIn(s.clients, item))))
    {
      hide Held, AllHeld, Scope.Counts, Scope.Covers, ListsOk, CmdqList.Valid;
      QueueIsValid(s, queue);
      LessHeld(s, queue, item, rest);
      ClientsOf(s, queue);
      InQueue(queue, item, rest);
      scope.CoveredSets(item, item.client);
      assert [] + [item] + rest == [item] + rest && [] + rest == rest;
      queue.Remove(0, item, [], rest, scope, s.refs);
      ValidList(queue);
      Replaced(s, queue, rest, s.refs - Held(item, ClientIn(s.clients, item)));
    }

    /** Set the flags of an item that has just been fired. */
    method SetFlags(item: CmdqItem, ret: Retval, ghost s: Sys)
      requires Matches(s) && item in s.known
      modifies `number, item`fired, item`waiting
      ensures Matches(s.(log := s.log + [item], waiting := s.waiting + if ret == Wait then {item} else {}))
    {
      hide ListsMatch, RefsMatch;
      number := number + 1;
      item.fired := true;
      if ret == Wait {
        item.waiting := true;
      }
      SameParts(s, s.(log := s.log + [item], waiting := s.waiting + if ret == Wait then {item} else {}));
    }

    /** Some items do not wait any longer. */
    lemma SomeContinue(s: Sys, o: Outcome<CmdqItem>)
      requires ListsMatch(s) && RefsMatch(s) && s.waiting <= s.known
      requires s.clients.Keys == s.known && (forall i :: i in s.log ==> i in s.known)
      requires forall i :: i in s.known ==> (i.fired <==> i in s.log) && i.client == s.clients[i]
      requires forall i :: i in s.known ==> (i.waiting <==> i in s.waiting && i !in o.continued)
      ensures Matches(s.(waiting := s.waiting - o.continued, table := o.table))
    {
      SameParts(s, s.(waiting := s.waiting - o.continued, table := o.table));
    }

    /** No item waits any longer. */
    lemma NoneWaits(s: Sys, s': Sys)
      requires ListsMatch(s) && RefsMatch(s) && s' == s.(waiting := {}, table := s'.table)
      requires s.clients.Keys == s.known && (forall i :: i in s.log ==> i in s.known)
      requires forall i :: i in s.known ==> (i.fired <==> i in s.log) && !i.waiting && i.client == s.clients[i]
      ensures Matches(s')
    {
      SameParts(s, s');
    }

    /** The references are others. */
    lemma OtherRefs(s: Sys, s': Sys)
      requires ListsMatch(s) && ItemsMatch(s) && s' == s.(refs := s'.refs, outside := s'.outside)
      requires scope.Counts(s'.refs) && forall i :: i in s.known && i in s.clients ==> scope.Covers(i, s.clients[i])
      ensures Matches(s')
    {
      hide Distinct, Scope.Counts, Scope.Covers;
    }

    lemma SameParts(s: Sys, s': Sys)
      requires ListsMatch(s) && RefsMatch(s)
      requires s' == s.(log := s'.log, waiting := s'.waiting, table := s'.table)
      ensures ListsMatch(s') && RefsMatch(s')
    {
      hide Distinct, Scope.Counts, Scope.Covers;
    }

    /** Append new items to a client's queue. */
    method AppendItems(c: Client?, first: CmdqItem, ghost chain: seq<CmdqItem>,
                       ghost m: multiset<Counted>) returns (last: CmdqItem)
      requires var queue := QueueOf(c); queue.Valid() && forall i :: i in chain ==> i !in queue.list
      requires IsChain(first, chain) && Unqueued(chain) && ClientSet(c) <= scope.clients && scope.Counts(m)
      modifies QueueOf(c)`list, chain, ClientSet(c)`references
      ensures var queue := QueueOf(c);
        queue.Valid() && queue.list == old(queue.list) + chain && QueuedFor(chain, queue, c)
      ensures last == chain[|chain| - 1] && scope.Counts(m + ClientCopies(c, |chain|))
    {
      last := QueueOf(c).Append(c, first, chain);
    }

    /** Make the items of a command list, and append them to a client's queue. */
    method QueueCommand(c: Client?, cmdlist: CmdList, state: CmdqState, ghost m: multiset<Counted>)
      returns (last: CmdqItem, ghost chain: seq<CmdqItem>)
      requires QueueOf(c).Valid() && state in scope.states && cmdlist in scope.lists
      requires ClientSet(c) <= scope.clients && scope.Counts(m)
      modifies `scope, QueueOf(c)`list, state`references, cmdlist`references, ClientSet(c)`references
      ensures var queue := QueueOf(c);
        queue.Valid() && queue.list == old(queue.list) + chain && QueuedFor(chain, queue, c)
      ensures fresh(chain) && Distinct(chain) && AllCovered(chain)
      ensures Shapes(chain) == ListShapes(cmdlist) && |chain| > 0 && last == chain[|chain| - 1]
      ensures Wider(old(scope)) && forall x :: x in scope.states ==> x in old(scope.states) || fresh(x)
      ensures scope.Counts(m + (Linked(chain) + ClientCopies(c, |chain|)))
    {
      hide Held, AllHeld, Shapes, CmdShapes, ListShapes, Linked, ClientCopies, Scope.Counts, Scope.Covers;
      hide CmdqList.Valid;
      var first;
      first, chain := MakeItems(cmdlist, state, m);
      last := AppendItems(c, first, chain, m + Linked(chain));
      MultisetSum(m, Linked(chain), ClientCopies(c, |chain|));
    }

    /** Append the items of a command list to a client's queue. */
    method AppendCommand(c: Client?, cmdlist: CmdList, state: CmdqState, ghost s: Sys)
      returns (last: CmdqItem, ghost chain: seq<CmdqItem>)
      requires Matches(s) && QueueOf(c) in s.lists && state in scope.states && cmdlist in scope.lists
      requires ClientSet(c) <= scope.clients
      modifies `scope, QueueOf(c)`list, state`references, cmdlist`references, ClientSet(c)`references
      ensures fresh(chain) && Shapes(chain) == ListShapes(cmdlist) && |chain| > 0 && last == chain[|chain| - 1]
      ensures Fresh(s, chain)
      ensures Wider(old(scope)) && forall x :: x in scope.states ==> x in old(scope.states) || fresh(x)
      ensures var q := QueueOf(c); Matches(Queued(s, chain, c).(lists := s.lists[q := s.lists[q] + chain]))
    {
      hide Held, AllHeld, Shapes, CmdShapes, ListShapes, Linked, ClientCopies, Scope.Counts, Scope.Covers;
      hide ListsOk, CmdqList.Valid;
      ghost var queue, was := QueueOf(c), scope;
      QueueIsValid(s, queue);
      last, chain := QueueCommand(c, cmdlist, state, s.refs);
      ghost var s' := Queued(s, chain, c).(lists := s.lists[queue := s.lists[queue] + chain]);
      assert Fresh(s, chain);
      StillKnown(s, was);
      MoreLists(s, s', queue, chain);
      MoreItems(s, s', queue, chain, c);
      MoreRefs(s, s', chain, c);
    }

    lemma ClientOf(s: Sys, queue: CmdqList, at: nat, item: CmdqItem)
      requires Matches(s) && queue in s.lists && at < |s.lists[queue]| && s.lists[queue][at] == item
      requires item in s.clients
      ensures item in s.known && item.client == s.clients[item] && ClientSet(item.client) <= scope.clients
    {
    }

    lemma InsertedList(s: Sys, queue: CmdqList, at: nat, c: Client?, chain: seq<CmdqItem>)
      requires queue in s.lists && at < |s.lists[queue]|
      ensures var l, s' := s.lists[queue], InsertedAfter(s, queue, at, c, chain);
        var m := l[..at + 1] + chain + l[at + 1..];
        && s'.lists == s.lists[queue := m] && s'.known == s.known + Elements(chain)
        && s' == Queued(s, chain, c).(lists := s'.lists)
        && forall i :: i in m ==> i in s.lists[queue] || i in chain
    {
      hide AllHeld;
    }

    /** Insert the items of a command list behind an item of a queue, whose place in it is at, for the client
        that it has now. */
    method InsertAfter(queue: CmdqList, at: nat, item: CmdqItem, cmdlist: CmdList, state: CmdqState, ghost s: Sys)
      returns (last: CmdqItem, ghost chain: seq<CmdqItem>)
      requires Matches(s) && queue in s.lists && at < |s.lists[queue]| && s.lists[queue][at] == item
      requires item in s.clients && state in scope.states && cmdlist in scope.lists
      modifies `scope, queue`list, item`next, state`references, cmdlist`references
      modifies ClientSet(s.clients[item])`references
      ensures fresh(chain) && Fresh(s, chain) && Shapes(chain) == ListShapes(cmdlist) && last in chain
      ensures Wider(old(scope))
      ensures forall x :: x in scope.states ==> x in old(scope.states) || fresh(x)
      ensures Matches(InsertedAfter(s, queue, at, s.clients[item], chain))
    {
      hide Held, AllHeld, Shapes, CmdShapes, ListShapes, Linked, ClientCopies, Scope.Counts, ListsOk;
      hide CmdqList.Valid, Quiet, Distinct, Scope.Covers, Queued, InsertedAfter;
      ghost var l, c, was := s.lists[queue], s.clients[item], scope;
      QueueIsValid(s, queue);
      ClientOf(s, queue, at, item);
      assert l == l[..at + 1] + l[at + 1..];
      var place;
      last, place, chain := InsertList(queue, at, item, cmdlist, state, l[..at + 1], l[at + 1..], s.refs);
      ghost var s' := InsertedAfter(s, queue, at, c, chain);
      assert Fresh(s, chain);
      InsertedList(s, queue, at, c, chain);
      StillKnown(s, was);
      MoreLists(s, s', queue, chain);
      MoreItems(s, s', queue, chain, c);
      MoreRefs(s, s', chain, c);
    }

    /** Insert them for a client that the item has for that while. */
    method InsertFor(queue: CmdqList, at: nat, item: CmdqItem, c: Client?, cmdlist: CmdList, state: CmdqState,
                     ghost s: Sys)
      returns (last: CmdqItem, ghost chain: seq<CmdqItem>)
      requires Matches(s) && queue in s.lists && at < |s.lists[queue]| && s.lists[queue][at] == item
      requires item in s.clients && state in scope.states && cmdlist in scope.lists
      requires ClientSet(c) <= scope.clients && ClientSet(item.client) <= scope.clients
      modifies `scope, queue`list, item`next, item`client, state`references, cmdlist`references
      modifies ClientSet(c)`references
      ensures fresh(chain) && Fresh(s, chain) && Shapes(chain) == ListShapes(cmdlist) && last in chain
      ensures item.client == old(item.client) && Wider(old(scope))
      ensures forall x :: x in scope.states ==> x in old(scope.states) || fresh(x)
      ensures Matches(InsertedAfter(s, queue, at, c, chain))
    {
      hide Shapes, ListShapes, Queued, Matches, Distinct, InsertedAfter;
      var own := item.client;
      ClientOf(s, queue, at, item);
      ghost var t := s.(clients := s.clients[item := c]);
      SetClient(item, c, s);
      last, chain := InsertAfter(queue, at, item, cmdlist, state, t);
      InsertedForClient(s, queue, at, item, c, chain);
      SetClient(item, own, InsertedAfter(t, queue, at, c, chain));
    }

    /** Items are inserted alike whatever client the item has meanwhile. */
    lemma InsertedForClient(s: Sys, queue: CmdqList, at: nat, item: CmdqItem, c: Client?, chain: seq<CmdqItem>)
      requires queue in s.lists && at < |s.lists[queue]| && s.lists[queue][at] == item && item in s.clients
      requires item in s.known && Fresh(s, chain)
      ensures var t := InsertedAfter(s.(clients := s.clients[item := c]), queue, at, c, chain);
        && item in t.known && InsertedAfter(s, queue, at, c, chain).table == s.table
        && t.(clients := t.clients[item := s.clients[item]]) == InsertedAfter(s, queue, at, c, chain)
    {
      hide AllHeld, Distinct;
      QueuedAlike(s, item, c, s.clients[item], chain, c);
    }

    lemma StillKnown(s: Sys, before: Scope)
      requires Wider(before) && forall i :: i in s.known && i in s.clients ==> before.Covers(i, s.clients[i])
      ensures forall i :: i in s.known && i in s.clients ==> scope.Covers(i, s.clients[i])
    {
    }
  }

  // ----- firing, in values -----

  /** The state while the head runs: it may have another client, and the channels have changed. */
  ghost function Running(s: Sys, i: CmdqItem, c: Client?, o: Outcome<CmdqItem>): Sys {
    s.(clients := s.clients[i := c], waiting := s.waiting - o.continued, table := o.table)
  }

  /** Hooks are queued for the client the head ran for, or after an error for its own, which it has again
      afterwards. */
  ghost function Finished(s: Sys, q: CmdqList, i: CmdqItem, c: Client?, own: Client?, ret: Retval,
                          chain: seq<CmdqItem>): Sys
    requires q in s.lists && |s.lists[q]| > 0
  {
    if ret == Error then Hooked(s.(clients := s.clients[i := own]), q, chain, own)
    else var s' := Hooked(s, q, chain, c); s'.(clients := s'.clients[i := own])
  }

  /** A fired head without its flags. */
  ghost function Unflagged(s: Sys, st: SysStep): Sys
    requires st.Fire? && Enabled(s, st)
  {
    Fired(s, st).(log := s.log, waiting := s.waiting - Answered(s, st).continued)
  }

  ghost function GroupRemoved(s: Sys, q: CmdqList, i: CmdqItem, rest: seq<CmdqItem>): Sys {
    s.(lists := s.lists[q := [i] + Without(rest, i.group)], refs := s.refs - AllHeld(OfGroup(rest, i.group), s.clients))
  }

  lemma NothingTaken(m: multiset<Counted>, clients: Clients)
    ensures m - AllHeld([], clients) == m
  {
  }

  /** Items are queued alike whatever client another item has. */
  lemma QueuedAlike(s: Sys, i: CmdqItem, c: Client?, own: Client?, chain: seq<CmdqItem>, d: Client?)
    requires i in s.clients && s.clients[i] == own && i !in chain
    ensures var t, u := Queued(s, chain, d), Queued(s.(clients := s.clients[i := c]), chain, d);
      u.(clients := u.clients[i := own]) == t
  {
    hide AllHeld;
    var t, u := Queued(s, chain, d), Queued(s.(clients := s.clients[i := c]), chain, d);
    SameClients(chain, t.clients, u.clients);
    assert u.clients[i := own] == t.clients;
  }

  /** Queueing does not depend on lists, flags and channels. */
  lemma QueuedApart(s: Sys, s': Sys, chain: seq<CmdqItem>, d: Client?)
    requires s'.known == s.known && s'.clients == s.clients && s'.refs == s.refs
    ensures var t, t' := Queued(s, chain, d), Queued(s', chain, d);
      && t == s.(known := t.known, clients := t.clients, refs := t.refs)
      && t' == s'.(known := t.known, clients := t.clients, refs := t.refs)
  {
  }

  lemma FinishedIs(s: Sys, st: SysStep, rest: seq<CmdqItem>)
    requires st.Fire? && Enabled(s, st) && Inv(s)
    requires var i := s.lists[st.queue][0]; s.lists[st.queue] == [i] + rest && i !in st.hooks && i.kind.Command?
    ensures var i, c, o := s.lists[st.queue][0], Runner(s, st), Answered(s, st);
      var own := ClientIn(s.clients, i);
      var f := Finished(Running(s, i, c, o), st.queue, i, c, own, o.ret, st.hooks);
      var t := Queued(s, st.hooks, HookClient(s, st));
      && f.lists[st.queue] == [i] + (st.hooks + rest) && f.clients == t.clients && f.refs == t.refs
      && Unflagged(s, st) == if o.ret == Error && i.group != 0 then GroupRemoved(f, st.queue, i, st.hooks + rest) else f
  {
    hide AllHeld, Executed, Runner, Queued, Without, OfGroup, Inv;
    var q, l := st.queue, s.lists[st.queue];
    var i, c, o := l[0], Runner(s, st), Answered(s, st);
    var own := ClientIn(s.clients, i);
    HeadIsKnown(s, q);
    assert l[1..] == rest && [i] + st.hooks + rest == [i] + (st.hooks + rest);
    var r := Running(s, i, c, o);
    if o.ret == Error {
      assert r.clients[i := own] == s.clients;
      QueuedApart(s, r.(clients := r.clients[i := own]), st.hooks, own);
    } else {
      var s' := s.(waiting := r.waiting, table := r.table);
      assert r == s'.(clients := s'.clients[i := c]);
      QueuedAlike(s', i, c, own, st.hooks, c);
      QueuedApart(s, s', st.hooks, c);
    }
    NothingTaken(Queued(s, st.hooks, HookClient(s, st)).refs, Queued(s, st.hooks, HookClient(s, st)).clients);
    var a, b := [i] + (st.hooks + rest), [i] + Without(st.hooks + rest, i.group);
    assert s.lists[q := a][q := b] == s.lists[q := b];
    assert Finished(r, q, i, c, own, o.ret, st.hooks).lists == s.lists[q := a];
  }

  /** What the head and the items behind it hold is counted, once the hooks are queued. */
  lemma HookedHeld(s: Sys, st: SysStep, item: CmdqItem, rest: seq<CmdqItem>)
    requires Inv(s) && RefsOk(s) && st.Fire? && Enabled(s, st) && s.lists[st.queue] == [item] + rest
    ensures var t := Queued(s, st.hooks, HookClient(s, st)); AllHeld([item] + (st.hooks + rest), t.clients) <= t.refs
  {
    hide Held, AllHeld, RefsOk, Executed, Runner, HookClient;
    var t := Queued(s, st.hooks, HookClient(s, st));
    InvLists(s);
    HeldIsCounted(s, st.queue);
    QueuedKeepsClients(s, st.hooks, HookClient(s, st));
    SameListHeld(s, t, st.queue);
    AllHeldOne(item, st.hooks + rest, t.clients);
    AllHeldOne(item, rest, t.clients);
    AllHeldAppend(st.hooks, rest, t.clients);
  }

  /** New items that a hook of the head may insert. */
  ghost predicate MayInsert(s: Sys, item: CmdqItem, chain: seq<CmdqItem>, h: nat) {
    Fresh(s, chain) && |chain| <= h && (Quiet(item) ==> chain == []) && forall i :: i in chain ==> Quiet(i)
  }

  /** A step that fires the head of a queue, up to its flags: what it answers, and the state it leads to. */
  ghost predicate Fires(s: Sys, st: SysStep, queue: CmdqList, around: Surroundings, h: nat, ret: Retval, u: Sys) {
    && st.Fire? && st == Fire(queue, around.found, around.resolved, st.hooks) && |st.hooks| <= h
    && Enabled(s, st) && ret == Answered(s, st).ret && u == Unflagged(s, st)
  }

  /** A step that fires the head. */
  lemma FireIs(s: Sys, st: SysStep, item: CmdqItem, h: nat, rest: seq<CmdqItem>, c: Client?)
    requires st.Fire? && st.queue in s.lists && s.lists[st.queue] == [item] + rest && item !in s.waiting
    requires item !in s.log
    requires MayInsert(s, item, st.hooks, h)
    requires c == if ClientIn(s.clients, item) != null then ClientIn(s.clients, item) else st.found
    ensures Enabled(s, st) && Runner(s, st) == c && Answered(s, st) == Executed(s.table, item, c != null, st.resolved)
  {
  }

  /** Firing a command, from the state after its hooks were queued. */
  lemma CommandFired(s: Sys, st: SysStep, around: Surroundings, item: CmdqItem, h: nat, rest: seq<CmdqItem>, c: Client?)
    requires st.Fire? && st == Fire(st.queue, around.found, around.resolved, st.hooks) && Inv(s) && RefsOk(s)
    requires item.kind.Command?
    requires st.Fire? && st.queue in s.lists && s.lists[st.queue] == [item] + rest && item !in s.waiting
    requires item !in s.log
    requires MayInsert(s, item, st.hooks, h)
    requires c == if ClientIn(s.clients, item) != null then ClientIn(s.clients, item) else st.found
    ensures var o := Executed(s.table, item, c != null, st.resolved);
      var f := Finished(Running(s, item, c, o), st.queue, item, c, ClientIn(s.clients, item), o.ret, st.hooks);
      var u := if o.ret == Error && item.group != 0 then GroupRemoved(f, st.queue, item, st.hooks + rest) else f;
      && Fires(s, st, st.queue, around, h, o.ret, u) && u.table == o.table && u.known == s.known + Elements(st.hooks)
      && st.queue in f.lists && f.lists[st.queue] == [item] + (st.hooks + rest)
      && AllHeld(f.lists[st.queue], f.clients) <= f.refs
  {
    hide Inv, RefsOk, Held, AllHeld, Executed, Unflagged, HookClient, Runner, Answered, Quiet;
    FireIs(s, st, item, h, rest, c);
    HeadIsKnown(s, st.queue);
    assert s.lists[st.queue][0] in s.known;
    FinishedIs(s, st, rest);
    HookedHeld(s, st, item, rest);
  }

  lemma HeadIsKnown(s: Sys, q: CmdqList)
    requires Inv(s) && q in s.lists && |s.lists[q]| > 0
    ensures s.lists[q][0] in s.known && s.lists[q][0] in s.clients && s.lists[q][0] !in s.lists[q][1..]
  {
    assert s.lists[q][0] in s.lists[q];
  }

  /** A fired callback changes nothing but its flags. */
  lemma CallbackIs(s: Sys, st: SysStep)
    requires st.Fire? && Enabled(s, st) && s.lists[st.queue][0].kind.Callback? && st.hooks == []
    ensures Unflagged(s, st) == s
  {
    hide HookClient, Runner;
    var l := s.lists[st.queue];
    assert [l[0]] + ([] + l[1..]) == l && s.lists[st.queue := l] == s.lists;
    NothingQueued(s, HookClient(s, st));
  }

  lemma NothingQueued(s: Sys, c: Client?)
    ensures Queued(s, [], c) == s
  {
    assert s.clients + (map i: CmdqItem | i in [] :: c) == s.clients;
  }

  /** The queues and the wait channels together. sys is the state of the protocol that they are in. */
  class Server {
    const queues: CommandQueues
    const channels: WaitFor.WaitChannels
    ghost var sys: Sys

    ghost predicate Valid()
      reads `sys, channels, channels.tree.Values
      reads sys.lists.Keys`list, sys.known`queue, sys.known`fired, sys.known`waiting, sys.known`client
      reads queues`scope, queues.scope.clients`references, queues.scope.states`references, queues.scope.lists`references
    {
      && queues.Matches(sys) && queues.HookLists() <= queues.scope.lists
      && channels.Valid() && channels.Contents() == sys.table && Inv(sys) && RefsOk(sys)
    }

    /** The objects have taken a step. */
    ghost method Take(st: SysStep)
      requires Enabled(sys, st) && queues.Matches(Apply(sys, st)) && queues.HookLists() <= queues.scope.lists
      requires channels.Valid() && channels.Contents() == Apply(sys, st).table && Inv(sys) && RefsOk(sys)
      modifies `sys
      ensures Valid() && sys == Apply(old(sys), st)
    {
      hide CommandQueues.Matches, Inv, RefsOk, Apply, Enabled;
      StepKeepsInv(sys, st);
      StepKeepsRefs(sys, st);
      sys := Apply(sys, st);
    }

    /** An idle server. What is followed has whatever references it has. */
    constructor (queues: CommandQueues, ghost others: set<CmdqList>, ghost m: multiset<Counted>)
      requires (forall q :: q in others + {queues.global} ==> q.list == []) && queues.HookLists() <= queues.scope.lists
      requires queues.scope.Counts(m)
      ensures this.queues == queues && Valid() && fresh(channels)
      ensures sys == Apply(Start(others + {queues.global}), Hold(m))
    {
      hide Scope.Counts, Inv, RefsOk;
      this.queues := queues;
      channels := new WaitFor.WaitChannels();
      sys := Apply(Start(others + {queues.global}), Hold(m));
      HeldFromStart(others + {queues.global}, m);
    }

    static lemma HeldFromStart(qs: set<CmdqList>, m: multiset<Counted>)
      ensures var s := Apply(Start(qs), Hold(m)); Inv(s) && RefsOk(s) && s.refs == m
    {
      hide Inv, RefsOk;
      StartIsOk(qs);
      StartCounts(qs);
      StepKeepsInv(Start(qs), Hold(m));
      StepKeepsRefs(Start(qs), Hold(m));
      assert multiset{} + m == m;
    }

    /** At the end of every method, the references of an object are its holders in the queues and outside. */
    lemma ReferencesAreHolders()
      requires Valid()
      ensures forall c :: c in queues.scope.clients ==>
        c.references == sys.outside[OfClient(c)] + |Holders(sys, OfClient(c))|
      ensures forall s :: s in queues.scope.states ==>
        s.references == sys.outside[OfState(s)] + |Holders(sys, OfState(s))|
      ensures forall l :: l in queues.scope.lists ==>
        l.references == sys.outside[OfList(l)] + |Holders(sys, OfList(l))|
    {
      hide RefsOk, Holders, Inv;
      forall c | c in queues.scope.clients ensures CountsOk(sys, OfClient(c)) { RefsOkAt(sys, OfClient(c)); }
      forall s | s in queues.scope.states ensures CountsOk(sys, OfState(s)) { RefsOkAt(sys, OfState(s)); }
      forall l | l in queues.scope.lists ensures CountsOk(sys, OfList(l)) { RefsOkAt(sys, OfList(l)); }
    }

    /** From now on the references of a command list are followed. */
    ghost method FollowList(l: CmdList)
      requires Valid() && l !in queues.scope.lists && OfList(l) !in sys.refs && l.references >= 0
      modifies `sys, queues`scope
      ensures Valid() && queues.scope == old(queues.scope).(lists := old(queues.scope).lists + {l})
      ensures sys == Apply(old(sys), Hold(Copies(OfList(l), l.references)))
    {
      hide Inv, RefsOk, Distinct;
      ghost var st := Hold(Copies(OfList(l), l.references));
      queues.scope := queues.scope.(lists := queues.scope.lists + {l});
      queues.OtherRefs(sys, Apply(sys, st));
      Take(st);
    }

    /** From now on the references of a client are followed. */
    ghost method FollowClient(c: Client)
      requires Valid() && c !in queues.scope.clients && OfClient(c) !in sys.refs && c.references >= 0
      modifies `sys, queues`scope
      ensures Valid() && queues.scope == old(queues.scope).(clients := old(queues.scope).clients + {c})
      ensures sys == Apply(old(sys), Hold(Copies(OfClient(c), c.references)))
    {
      hide Inv, RefsOk, Distinct;
      ghost var st := Hold(Copies(OfClient(c), c.references));
      queues.scope := queues.scope.(clients := queues.scope.clients + {c});
      queues.OtherRefs(sys, Apply(sys, st));
      Take(st);
    }

    /** A new state, with one reference. */
    method NewState(noHooks: bool) returns (state: CmdqState)
      requires Valid()
      modifies `sys, queues`scope
      ensures Valid() && fresh(state) && state.noHooks == noHooks && state in queues.scope.states
      ensures sys == Apply(old(sys), Hold(multiset{OfState(state)})) && queues.Wider(old(queues.scope))
    {
      hide Scope.Counts, Scope.Covers, Inv, RefsOk, ListsOk;
      ghost var was := queues.scope;
      state := queues.NewState(noHooks, sys.refs);
      queues.StillKnown(sys, was);
      queues.OtherRefs(sys, Apply(sys, Hold(multiset{OfState(state)})));
      Take(Hold(multiset{OfState(state)}));
    }

    /** Drop a reference to a state that is not one of a queued item. */
    method FreeState(state: CmdqState)
      requires Valid() && state in queues.scope.states && OfState(state) in sys.outside
      modifies `sys, state`references
      ensures Valid() && sys == Apply(old(sys), Release(multiset{OfState(state)}))
    {
      hide Scope.Counts, Scope.Covers, Inv, ListsOk, CountsOk;
      queues.FreeState(state, sys.refs);
      queues.OtherRefs(sys, Apply(sys, Release(multiset{OfState(state)})));
      Take(Release(multiset{OfState(state)}));
    }

    /** Append the items of a command list to a client's queue. */
    method AppendCommand(c: Client?, cmdlist: CmdList, state: CmdqState)
      returns (last: CmdqItem, ghost chain: seq<CmdqItem>)
      requires Valid() && queues.QueueOf(c) in sys.lists
      requires state in queues.scope.states && cmdlist in queues.scope.lists && ClientSet(c) <= queues.scope.clients
      modifies `sys, queues`scope, queues.QueueOf(c)`list, state`references, cmdlist`references, ClientSet(c)`references
      ensures Valid() && fresh(chain) && |chain| > 0 && last == chain[|chain| - 1]
      ensures Shapes(chain) == ListShapes(cmdlist)
      ensures queues.Wider(old(queues.scope))
      ensures forall x :: x in queues.scope.states ==> x in old(queues.scope.states) || fresh(x)
      ensures var st := QueueProtocol.Append(queues.QueueOf(c), c, chain);
        Enabled(old(sys), st) && sys == Apply(old(sys), st)
    {
      hide Shapes, ListShapes, Inv, RefsOk, Queued, CommandQueues.Matches, Fresh, Enabled, Apply;
      hide CommandQueues.HookLists, WaitFor.WaitChannels.Contents, WaitFor.WaitChannels.Valid;
      last, chain := queues.AppendCommand(c, cmdlist, state, sys);
      AppendedIs(sys, queues.QueueOf(c), c, chain);
      Take(QueueProtocol.Append(queues.QueueOf(c), c, chain));
    }

    /** Insert the items of a command list behind an item, as a command does while it is executed, or a
        callback later. The item has its own client, or for that while the one that is found for it. */
    method InsertAfter(queue: CmdqList, at: nat, item: CmdqItem, found: Client?, cmdlist: CmdList, state: CmdqState)
      returns (last: CmdqItem, ghost chain: seq<CmdqItem>)
      requires Valid() && queue in sys.lists && at < |sys.lists[queue]| && sys.lists[queue][at] == item
      requires state in queues.scope.states && cmdlist in queues.scope.lists
      requires ClientSet(found) <= queues.scope.clients
      modifies `sys, queues`scope, queue`list, item`next, item`client, state`references, cmdlist`references
      modifies queues.scope.clients`references
      ensures Valid() && fresh(chain) && last in chain && Shapes(chain) == ListShapes(cmdlist)
      ensures item.client == old(item.client) && queues.Wider(old(queues.scope))
      ensures forall x :: x in queues.scope.states ==> x in old(queues.scope.states) || fresh(x)
      ensures var c := if old(item.client) != null then old(item.client) else found;
        var st := QueueProtocol.InsertAfter(queue, at, c, chain);
        Enabled(old(sys), st) && sys == Apply(old(sys), st)
    {
      hide Shapes, ListShapes, Inv, RefsOk, CommandQueues.Matches, InsertedAfter, Fresh;
      hide CommandQueues.HookLists, WaitFor.WaitChannels.Contents, WaitFor.WaitChannels.Valid, Enabled, Apply;
      ItemFacts(queue, at, item);
      var c := if item.client != null then item.client else found;
      last, chain := queues.InsertFor(queue, at, item, c, cmdlist, state, sys);
      InsertedIs(sys, queue, at, c, chain);
      Take(QueueProtocol.InsertAfter(queue, at, c, chain));
    }

    lemma ItemFacts(queue: CmdqList, at: nat, item: CmdqItem)
      requires Valid() && queue in sys.lists && at < |sys.lists[queue]| && sys.lists[queue][at] == item
      ensures item in sys.known && item in sys.clients && item.client == sys.clients[item]
      ensures ClientSet(item.client) <= queues.scope.clients
    {
      assert item in sys.lists[queue];
    }

    lemma InsertedIs(s: Sys, queue: CmdqList, at: nat, c: Client?, chain: seq<CmdqItem>)
      requires queue in s.lists && at < |s.lists[queue]| && Fresh(s, chain)
      requires ClientIn(s.clients, s.lists[queue][at]) != null ==> c == ClientIn(s.clients, s.lists[queue][at])
      ensures var st := QueueProtocol.InsertAfter(queue, at, c, chain);
        && Enabled(s, st) && Apply(s, st) == InsertedAfter(s, queue, at, c, chain)
        && Apply(s, st).table == s.table
    {
      hide AllHeld, Distinct;
    }

    lemma AppendedIs(s: Sys, queue: CmdqList, c: Client?, chain: seq<CmdqItem>)
      requires queue in s.lists && Fresh(s, chain)
      ensures var st, t := QueueProtocol.Append(queue, c, chain), Queued(s, chain, c);
        && Enabled(s, st) && Apply(s, st) == t.(lists := s.lists[queue := s.lists[queue] + chain])
        && Apply(s, st).table == s.table
    {
      hide AllHeld, Distinct;
    }

    /** Continue all suspended items, and free all channels. */
    method ContinueAll(ghost s: Sys)
      requires Wired(s)
      modifies channels, channels.tree.Values, s.known`waiting
      ensures channels.Valid() && channels.Contents() == map[] && queues.Matches(s.(waiting := {}, table := map[]))
    {
      hide Suspended, Scope.Counts, Scope.Covers, ListsOk, CommandQueues.HookLists;
      channels.ItemsAreSuspended();
      channels.Flush();
      queues.NoneWaits(s, s.(waiting := {}, table := map[]));
    }

    /** Continue all suspended items and free all channels, at the exit of the server. */
    method Flush()
      requires Valid()
      modifies `sys, channels, channels.tree.Values, sys.known`waiting
      ensures Valid() && sys == Apply(old(sys), FlushChannels)
    {
      hide CommandQueues.Matches, CommandQueues.HookLists, RefsOk, ListsOk, LogOk, Suspended;
      hide WaitFor.WaitChannels.Contents;
      ContinueAll(sys);
      assert Apply(sys, FlushChannels) == sys.(waiting := {}, table := map[]);
      Take(FlushChannels);
    }

    // ----- firing -----

    /** The channels and the items' flags are in a state of the protocol that need not be a step's. */
    ghost predicate Wired(s: Sys)
      reads channels, channels.tree.Values
      reads s.lists.Keys`list, s.known`queue, s.known`fired, s.known`waiting, s.known`client
      reads queues`scope, queues.scope.clients`references, queues.scope.states`references, queues.scope.lists`references
    {
      && queues.Matches(s) && queues.HookLists() <= queues.scope.lists
      && channels.Valid() && channels.Contents() == s.table && Suspended(s.table) == s.waiting
    }

    /** The channels have answered a command. */
    ghost function Executing(s: Sys, o: Outcome<CmdqItem>): Sys {
      s.(waiting := s.waiting - o.continued, table := o.table)
    }

    /** Execute wait-for. */
    method ExecWaitFor(item: CmdqItem, client: bool, kind: WaitKind, name: string, ghost s: Sys) returns (ret: Retval)
      requires Wired(s) && item in s.known
      modifies s.known`waiting, channels, channels.tree.Values
      ensures channels.Valid() && forall x :: x in channels.tree.Values ==> x in old(channels.tree.Values) || fresh(x)
      ensures var o := Step(s.table, WaitFor.OpOf(item, client, kind, name));
        ret == o.ret && channels.Contents() == o.table && queues.Matches(Executing(s, o))
    {
      hide Suspended, Scope.Counts, Scope.Covers, ListsOk, Step;
      channels.ItemsAreSuspended();
      ret := channels.Exec(item, client, kind, name);
      ghost var o := Step(s.table, WaitFor.OpOf(item, client, kind, name));
      queues.SomeContinue(s, o);
    }

    /** Execute a command for the client it has. */
    method Exec(item: CmdqItem, entry: Entry, resolved: bool, ghost s: Sys) returns (ret: Retval)
      requires Wired(s) && item in s.known && item.kind == Command(entry)
      modifies s.known`waiting, channels, channels.tree.Values
      ensures channels.Valid() && forall x :: x in channels.tree.Values ==> x in old(channels.tree.Values) || fresh(x)
      ensures var o := Executed(s.table, item, old(item.client) != null, resolved);
        ret == o.ret && channels.Contents() == o.table && queues.Matches(Executing(s, o))
    {
      hide CommandQueues.Matches, Step;
      assert Executing(s, Outcome(s.table, Normal, {})) == s;
      if !resolved {
        return Error;
      }
      match entry.action
      case Plain(r) => ret := r;
      case WaitFor(kind, name) => ret := ExecWaitFor(item, item.client != null, kind, name, s);
    }

    /** Executing leaves the hooks what they are. */
    method ExecHooked(item: CmdqItem, entry: Entry, resolved: bool, ghost h: nat, ghost table: HookTable, ghost s: Sys)
      returns (ret: Retval)
      requires Wired(s) && item in s.known && item.kind == Command(entry) && queues.HooksAre(h, table)
      modifies s.known`waiting, channels, channels.tree.Values
      ensures channels.Valid() && forall x :: x in channels.tree.Values ==> x in old(channels.tree.Values) || fresh(x)
      ensures var o := Executed(s.table, item, old(item.client) != null, resolved);
        ret == o.ret && channels.Contents() == o.table && queues.Matches(Executing(s, o))
      ensures queues.HooksAre(h, table)
    {
      hide CommandQueues.Matches, Wired, Executed, HookShapes, HookSize, WaitFor.WaitChannels.Contents;
      hide WaitFor.WaitChannels.Valid;
      ghost var cmds := queues.HookCommands();
      ret := Exec(item, entry, resolved, s);
      assert queues.HookCommands() == cmds;
    }

    /** Let an item without a client run for the one that is found for it. */
    method RunFor(item: CmdqItem, found: Client?, ghost h: nat, ghost table: HookTable, ghost s: Sys)
      requires Wired(s) && item in s.known && ClientSet(found) <= queues.scope.clients && queues.HooksAre(h, table)
      modifies item`client
      ensures queues.HooksAre(h, table)
      ensures item.client == if old(item.client) != null then old(item.client) else found
      ensures Wired(s.(clients := s.clients[item := item.client]))
    {
      hide Scope.Counts, Suspended, ListsOk, CommandQueues.HooksAre;
      if item.client == null {
        queues.ChangeClient(item, found, h, table, s);
      } else {
        assert s.clients[item := item.client] == s.clients;
      }
    }

    /** Queue the after-hook of a command, if there is a target for it, for the client the command ran
        for; and then give the command its own client back. */
    method RunAfterHook(queue: CmdqList, item: CmdqItem, entry: Entry, target: bool, saved: Client?,
                        ghost h: nat, ghost table: HookTable, ghost s: Sys, ghost rest: seq<CmdqItem>)
      returns (ghost chain: seq<CmdqItem>)
      requires queues.Matches(s) && queue in s.lists && s.lists[queue] == [item] + rest && item in s.known
      requires item in s.clients
      requires queues.HooksAre(h, table) && queues.HookLists() <= queues.scope.lists
      requires ClientSet(saved) <= queues.scope.clients
      modifies queues`scope, queue`list, item`next, item`client
      modifies queues.scope.clients`references, queues.scope.lists`references
      ensures var s' := Hooked(s, queue, chain, s.clients[item]);
        queues.Matches(s'.(clients := s'.clients[item := saved]))
      ensures Fresh(s, chain) && fresh(chain) && |chain| <= h && forall i :: i in chain ==> Quiet(i)
      ensures queues.Wider(old(queues.scope))
      ensures forall x :: x in queues.scope.states ==> x in old(queues.scope.states) || fresh(x)
      ensures Shapes(chain) ==
        if item.state.noHooks || !entry.afterHook || !target then [] else ItemsIn(table, "after-" + entry.name)
    {
      hide CommandQueues.Matches, Queued, Shapes;
      queues.NoItems();
      chain := [];
      ghost var parts, c := [], s.clients[item];
      queues.HookedNone(s, queue, c);
      if entry.afterHook && target {
        chain, parts := queues.InsertHook(queue, item, "after-" + entry.name, h, table, s, rest);
      }
      QueuedMore(s, chain, c);
      queues.SetClient(item, saved, Hooked(s, queue, chain, c));
    }

    lemma QueuedMore(s: Sys, chain: seq<CmdqItem>, c: Client?)
      ensures s.known <= Queued(s, chain, c).known
    {
    }

    /** Give a command that has failed its own client back, and queue the error hook for that. */
    method RunErrorHook(queue: CmdqList, item: CmdqItem, entry: Entry, saved: Client?,
                        ghost h: nat, ghost table: HookTable, ghost s: Sys, ghost rest: seq<CmdqItem>)
      returns (ghost chain: seq<CmdqItem>)
      requires queues.Matches(s) && queue in s.lists && s.lists[queue] == [item] + rest && item in s.known
      requires item in s.clients
      requires queues.HooksAre(h, table) && queues.HookLists() <= queues.scope.lists
      requires ClientSet(saved) <= queues.scope.clients
      modifies queues`scope, queue`list, item`next, item`client
      modifies queues.scope.clients`references, queues.scope.lists`references
      ensures queues.Matches(Hooked(s.(clients := s.clients[item := saved]), queue, chain, saved))
      ensures Fresh(s, chain) && fresh(chain) && |chain| <= h && forall i :: i in chain ==> Quiet(i)
      ensures queues.Wider(old(queues.scope))
      ensures forall x :: x in queues.scope.states ==> x in old(queues.scope.states) || fresh(x)
      ensures Shapes(chain) == if item.state.noHooks then [] else ItemsIn(table, "command-error")
    {
      hide CommandQueues.Matches, Queued, Shapes, CommandQueues.HooksAre, ItemsIn;
      ghost var s', parts := s.(clients := s.clients[item := saved]), [];
      queues.ChangeClient(item, saved, h, table, s);
      chain, parts := queues.InsertHook(queue, item, "command-error", h, table, s', rest);
    }

    /** Queue the hooks of a command that has been executed. */
    method RunHooks(queue: CmdqList, item: CmdqItem, entry: Entry, ret: Retval, target: bool, saved: Client?,
                    ghost h: nat, ghost table: HookTable, ghost s: Sys, ghost rest: seq<CmdqItem>)
      returns (ghost chain: seq<CmdqItem>)
      requires queues.Matches(s) && queue in s.lists && s.lists[queue] == [item] + rest && item in s.known
      requires item in s.clients
      requires item.kind.Command?
      requires queues.HooksAre(h, table) && queues.HookLists() <= queues.scope.lists
      requires ClientSet(saved) <= queues.scope.clients
      modifies queues`scope, queue`list, item`next, item`client
      modifies queues.scope.clients`references, queues.scope.lists`references
      ensures queues.Matches(Finished(s, queue, item, s.clients[item], saved, ret, chain))
      ensures fresh(chain) && MayInsert(s, item, chain, h)
      ensures queues.Wider(old(queues.scope))
      ensures forall x :: x in queues.scope.states ==> x in old(queues.scope.states) || fresh(x)
      ensures AreHooks(chain, item, entry, ret, target, table)
    {
      hide CommandQueues.Matches, Hooked, Fresh, Shapes, ItemsIn;
      if ret != Error {
        chain := RunAfterHook(queue, item, entry, target, saved, h, table, s, rest);
      } else {
        chain := RunErrorHook(queue, item, entry, saved, h, table, s, rest);
      }
    }

    /** Execute the command at the head of a queue for its own client, or the one that is found for it. */
    method ExecFor(item: CmdqItem, entry: Entry, around: Surroundings, ghost h: nat, ghost table: HookTable,
                   ghost s: Sys)
      returns (ret: Retval, ghost c: Client?)
      requires Wired(s) && item in s.known && item.kind == Command(entry) && queues.HooksAre(h, table)
      requires ClientSet(around.found) <= queues.scope.clients
      modifies item`client, s.known`waiting, channels, channels.tree.Values
      ensures channels.Valid() && forall x :: x in channels.tree.Values ==> x in old(channels.tree.Values) || fresh(x)
      ensures c == if old(item.client) != null then old(item.client) else around.found
      ensures queues.HooksAre(h, table)
      ensures var o := Executed(s.table, item, c != null, around.resolved);
        ret == o.ret && channels.Contents() == o.table && queues.Matches(Running(s, item, c, o))
    {
      hide CommandQueues.Matches, Executed, Suspended, CommandQueues.HooksAre;
      RunFor(item, around.found, h, table, s);
      c := item.client;
      ret := ExecHooked(item, entry, around.resolved, h, table, s.(clients := s.clients[item := c]));
    }

    /** Fire the command at the head of a queue: find a client for it if it has none, execute it, and run
        its hooks. c is the client it ran for. */
    method FireCommand(queue: CmdqList, item: CmdqItem, entry: Entry, around: Surroundings,
                       ghost h: nat, ghost table: HookTable, ghost s: Sys, ghost rest: seq<CmdqItem>)
      returns (ret: Retval, ghost chain: seq<CmdqItem>, ghost c: Client?, ghost o: Outcome<CmdqItem>)
      requires Wired(s) && queue in s.lists && s.lists[queue] == [item] + rest && item.kind == Command(entry)
      requires item in s.known && item in s.clients
      requires ClientSet(item.client) + ClientSet(around.found) <= queues.scope.clients
      requires queues.HooksAre(h, table) && queues.HookLists() <= queues.scope.lists
      modifies queues`scope, queue`list, item`next, item`client, s.known`waiting, channels, channels.tree.Values
      modifies queues.scope.clients`references, queues.scope.lists`references
      ensures channels.Valid() && forall x :: x in channels.tree.Values ==> x in old(channels.tree.Values) || fresh(x)
      ensures queues.Wider(old(queues.scope))
      ensures forall x :: x in queues.scope.states ==> x in old(queues.scope.states) || fresh(x)
      ensures fresh(chain) && MayInsert(s, item, chain, h)
      ensures AreHooks(chain, item, entry, ret, around.hookTarget, table)
      ensures c == if old(item.client) != null then old(item.client) else around.found
      ensures o == Executed(s.table, item, c != null, around.resolved) && ret == o.ret && channels.Contents() == o.table
      ensures queues.Matches(Finished(Running(s, item, c, o), queue, item, c, old(item.client), ret, chain))
    {
      hide CommandQueues.Matches, Wired, Executed, Finished, MayInsert, Running, CommandQueues.HooksAre;
      hide AreHooks;
      hide WaitFor.WaitChannels.Contents;
      var saved := item.client;
      ret, c := ExecFor(item, entry, around, h, table, s);
      o := Executed(s.table, item, c != null, around.resolved);
      ghost var r := Running(s, item, c, o);
      RunningFacts(s, item, c, o);
      chain := RunHooks(queue, item, entry, ret, around.hookTarget, saved, h, table, r, rest);
      MayInsertAlike(s, r, item, chain, h);
    }

    lemma RunningFacts(s: Sys, item: CmdqItem, c: Client?, o: Outcome<CmdqItem>)
      ensures var r := Running(s, item, c, o);
        r.lists == s.lists && r.known == s.known && item in r.clients && r.clients[item] == c
    {
    }

    lemma MayInsertAlike(s: Sys, s': Sys, item: CmdqItem, chain: seq<CmdqItem>, h: nat)
      requires s.known == s'.known
      ensures MayInsert(s, item, chain, h) == MayInsert(s', item, chain, h)
    {
    }

    lemma HeadFacts(queue: CmdqList, item: CmdqItem, rest: seq<CmdqItem>)
      requires Valid() && queue in sys.lists && sys.lists[queue] == [item] + rest
      ensures Wired(sys) && queue.list == [item] + rest && item in sys.known && item in sys.clients && item !in rest
      ensures item.client == sys.clients[item] == ClientIn(sys.clients, item)
      ensures ClientSet(item.client) <= queues.scope.clients
      ensures (item.fired <==> item in sys.log) && (item.waiting <==> item in sys.waiting)
    {
      hide Scope.Counts;
      HeadIsKnown(sys, queue);
      assert ([item] + rest)[1..] == rest;
      assert queues.scope.Covers(item, sys.clients[item]);
    }

    /** An item is the head of a queue, and has not been fired. */
    ghost predicate IsNext(s: Sys, queue: CmdqList, item: CmdqItem, rest: seq<CmdqItem>)
      reads item`client, queues`scope
    {
      && queue in s.lists && s.lists[queue] == [item] + rest && item !in s.waiting && item !in s.log
      && item in s.known && item in s.clients && item.client == ClientIn(s.clients, item)
      && ClientSet(item.client) <= queues.scope.clients
    }

    /** Fire a command, and if it fails end its group. */
    method FireAndEnd(queue: CmdqList, item: CmdqItem, entry: Entry, around: Surroundings,
                      ghost h: nat, ghost table: HookTable, ghost s: Sys, ghost rest: seq<CmdqItem>)
      returns (ret: Retval, ghost st: SysStep, ghost u: Sys)
      requires Wired(s) && Inv(s) && RefsOk(s) && IsNext(s, queue, item, rest) && item.kind == Command(entry)
      requires queues.HooksAre(h, table) && queues.HookLists() <= queues.scope.lists
      requires ClientSet(around.found) <= queues.scope.clients
      modifies queues`scope, queue`list, item`next, item`client, s.known`waiting, channels, channels.tree.Values
      modifies queues.scope.clients`references, queues.scope.states`references, queues.scope.lists`references
      ensures channels.Valid() && forall x :: x in channels.tree.Values ==> x in old(channels.tree.Values) || fresh(x)
      ensures queues.Wider(old(queues.scope))
      ensures forall x :: x in queues.scope.states ==> x in old(queues.scope.states) || fresh(x)
      ensures forall x :: x in u.known ==> x in s.known || fresh(x)
      ensures Fires(s, st, queue, around, h, ret, u) && channels.Contents() == u.table && queues.Matches(u)
      ensures HasHooks(st, item, ret, around.hookTarget, table)
    {
      hide CommandQueues.Matches, Wired, Inv, RefsOk, Fires, HasHooks, GroupRemoved, AllHeld, CmdqList.Valid;
      hide CommandQueues.HooksAre, CommandQueues.HookLists, CommandQueues.HookCommands, ClientSet;
      hide WaitFor.WaitChannels.Valid, WaitFor.WaitChannels.Contents, Scope.Counts, Distinct;
      ghost var f := s;
      ret, st, f := FireToEnd(queue, item, entry, around, h, table, s, rest);
      u := EndGroup(queue, item, ret, f, st.hooks + rest);
    }

    /** Fire a command, up to the end of its group. */
    method FireToEnd(queue: CmdqList, item: CmdqItem, entry: Entry, around: Surroundings,
                     ghost h: nat, ghost table: HookTable, ghost s: Sys, ghost rest: seq<CmdqItem>)
      returns (ret: Retval, ghost st: SysStep, ghost f: Sys)
      requires Wired(s) && Inv(s) && RefsOk(s) && IsNext(s, queue, item, rest) && item.kind == Command(entry)
      requires queues.HooksAre(h, table) && queues.HookLists() <= queues.scope.lists
      requires ClientSet(around.found) <= queues.scope.clients
      modifies queues`scope, queue`list, item`next, item`client, s.known`waiting, channels, channels.tree.Values
      modifies queues.scope.clients`references, queues.scope.lists`references
      ensures channels.Valid() && forall x :: x in channels.tree.Values ==> x in old(channels.tree.Values) || fresh(x)
      ensures queues.Wider(old(queues.scope))
      ensures forall x :: x in queues.scope.states ==> x in old(queues.scope.states) || fresh(x)
      ensures HasHooks(st, item, ret, around.hookTarget, table)
      ensures queues.Matches(f) && st.Fire? && queue in f.lists && f.lists[queue] == [item] + (st.hooks + rest)
      ensures AllHeld(f.lists[queue], f.clients) <= f.refs
      ensures var u := if ret == Error && item.group != 0 then GroupRemoved(f, queue, item, st.hooks + rest) else f;
        && Fires(s, st, queue, around, h, ret, u) && channels.Contents() == u.table
        && forall x :: x in u.known ==> x in s.known || fresh(x)
    {
      hide AreHooks, CommandQueues.HookCommands, Running, CmdqList.Valid, Scope.Counts, Distinct;
      hide CommandQueues.Matches, Wired, Inv, RefsOk, Executed, Finished, MayInsert, Fires, Held, AllHeld;
      hide CommandQueues.HooksAre, CommandQueues.HookLists, ClientSet, GroupRemoved;
      hide WaitFor.WaitChannels.Valid, WaitFor.WaitChannels.Contents;
      ghost var chain, c, o := [], null, Outcome(s.table, Normal, {});
      ret, chain, c, o := FireCommand(queue, item, entry, around, h, table, s, rest);
      st := Fire(queue, around.found, around.resolved, chain);
      CommandFired(s, st, around, item, h, rest, c);
      RunningFacts(s, item, c, o);
      f := Finished(Running(s, item, c, o), queue, item, c, ClientIn(s.clients, item), ret, chain);
    }

    /** An error ends the group of a command. */
    method EndGroup(queue: CmdqList, item: CmdqItem, ret: Retval, ghost f: Sys, ghost behind: seq<CmdqItem>)
      returns (ghost u: Sys)
      requires queues.Matches(f) && queue in f.lists && f.lists[queue] == [item] + behind
      requires ret == Error ==> AllHeld(f.lists[queue], f.clients) <= f.refs
      modifies queue`list
      modifies queues.scope.clients`references, queues.scope.states`references, queues.scope.lists`references
      ensures u == if ret == Error && item.group != 0 then GroupRemoved(f, queue, item, behind) else f
      ensures queues.Matches(u)
    {
      hide CommandQueues.Matches, AllHeld, GroupRemoved;
      u := f;
      if ret == Error {
        queues.RemoveGroup(queue, item, f, behind);
        u := if item.group == 0 then f else GroupRemoved(f, queue, item, behind);
      }
    }

    /** Fire an item by its kind. */
    method FireKind(queue: CmdqList, item: CmdqItem, around: Surroundings, ghost h: nat, ghost table: HookTable,
                    ghost s: Sys, ghost rest: seq<CmdqItem>)
      returns (ret: Retval, ghost st: SysStep, ghost u: Sys)
      requires Wired(s) && Inv(s) && RefsOk(s) && IsNext(s, queue, item, rest)
      requires queues.HooksAre(h, table) && queues.HookLists() <= queues.scope.lists
      requires ClientSet(around.found) <= queues.scope.clients
      modifies queues`scope, queue`list, item`next, item`client, s.known`waiting, channels, channels.tree.Values
      modifies queues.scope.clients`references, queues.scope.states`references, queues.scope.lists`references
      ensures channels.Valid() && forall x :: x in channels.tree.Values ==> x in old(channels.tree.Values) || fresh(x)
      ensures queues.Wider(old(queues.scope))
      ensures forall x :: x in queues.scope.states ==> x in old(queues.scope.states) || fresh(x)
      ensures forall x :: x in u.known ==> x in s.known || fresh(x)
      ensures Fires(s, st, queue, around, h, ret, u) && channels.Contents() == u.table && queues.Matches(u)
      ensures HasHooks(st, item, ret, around.hookTarget, table)
    {
      hide Shapes, HooksOf;
      hide CommandQueues.Matches, Inv, RefsOk, Fires, CommandQueues.HooksAre, CommandQueues.HookLists, ClientSet;
      match item.kind {
        case Callback(r) =>
          ret, st, u := r, Fire(queue, around.found, around.resolved, []), s;
          CallbackFired(s, st, around, h, rest);
        case Command(entry) =>
          ret, st, u := FireAndEnd(queue, item, entry, around, h, table, s, rest);
      }
    }

    lemma CallbackFired(s: Sys, st: SysStep, around: Surroundings, h: nat, rest: seq<CmdqItem>)
      requires st.Fire? && st.queue in s.lists && |s.lists[st.queue]| > 0
      requires st == Fire(st.queue, around.found, around.resolved, [])
      requires var item := s.lists[st.queue][0]; item !in s.waiting && item !in s.log && item.kind.Callback?
      ensures Fires(s, st, st.queue, around, h, s.lists[st.queue][0].kind.ret, s)
    {
      hide Unflagged;
      CallbackIs(s, st);
    }

    /** The flags complete the step. */
    lemma Flagged(s: Sys, st: SysStep, queue: CmdqList, around: Surroundings, h: nat, ret: Retval, u: Sys)
      requires Inv(s) && Fires(s, st, queue, around, h, ret, u)
      ensures Enabled(s, st)
      ensures var item := s.lists[queue][0];
        && item in u.known && u.table == Apply(s, st).table
        && u.(log := u.log + [item], waiting := u.waiting + if ret == Wait then {item} else {}) == Apply(s, st)
        && st.Fire? && st == Fire(queue, around.found, around.resolved, st.hooks) && |st.hooks| <= h
        && ret == Answered(s, st).ret
    {
      hide Inv, Executed, Queued, TakenAway, Following, Runner, HookClient;
      HeadIsKnown(s, queue);
      QueuedApart(s, s, st.hooks, HookClient(s, st));
      KnownStays(s, st.hooks, HookClient(s, st));
    }

    lemma KnownStays(s: Sys, chain: seq<CmdqItem>, c: Client?)
      ensures s.known <= Queued(s, chain, c).known
    {
    }

    /** Fire the head of a queue. */
    method FireHead(queue: CmdqList, item: CmdqItem, around: Surroundings, ghost h: nat, ghost table: HookTable,
                    ghost rest: seq<CmdqItem>)
      returns (ret: Retval, ghost st: SysStep)
      requires Valid() && queue in sys.lists && sys.lists[queue] == [item] + rest && !item.fired && !item.waiting
      requires queues.HooksAre(h, table) && ClientSet(around.found) <= queues.scope.clients
      modifies `sys, queues`scope, queues`number, queue`list, item`next, item`client, item`fired, sys.known`waiting
      modifies queues.scope.clients`references, queues.scope.states`references, queues.scope.lists`references
      modifies channels, channels.tree.Values
      ensures Valid() && forall x :: x in channels.tree.Values ==> x in old(channels.tree.Values) || fresh(x)
      ensures queues.Wider(old(queues.scope))
      ensures forall x :: x in queues.scope.states ==> x in old(queues.scope.states) || fresh(x)
      ensures forall x :: x in sys.known ==> x in old(sys.known) || fresh(x)
      ensures st.Fire? && st == Fire(queue, around.found, around.resolved, st.hooks) && |st.hooks| <= h
      ensures Enabled(old(sys), st) && sys == Apply(old(sys), st) && ret == Answered(old(sys), st).ret
      ensures HasHooks(st, item, ret, around.hookTarget, table)
    {
      hide HasHooks, CommandQueues.HooksAre, CommandQueues.HookLists, CommandQueues.HookCommands;
      hide CommandQueues.Matches, Inv, RefsOk, Fires, Apply, Answered, Enabled;
      hide Wired, ClientSet, WaitFor.WaitChannels.Contents, WaitFor.WaitChannels.Valid;
      HeadFacts(queue, item, rest);
      ghost var u;
      ret, st, u := FireKind(queue, item, around, h, table, sys, rest);
      Flagged(sys, st, queue, around, h, ret, u);
      queues.SetFlags(item, ret, u);
      Take(st);
    }

    /** Pop the finished head of a queue. */
    method PopHead(queue: CmdqList, item: CmdqItem, ghost rest: seq<CmdqItem>)
      requires Valid() && queue in sys.lists && sys.lists[queue] == [item] + rest && item.fired && !item.waiting
      modifies `sys, queue`list
      modifies queues.scope.clients`references, queues.scope.states`references, queues.scope.lists`references
      ensures Valid() && Enabled(old(sys), Pop(queue)) && sys == Apply(old(sys), Pop(queue))
      ensures sys.known == old(sys.known)
    {
      hide CommandQueues.Matches, Inv, RefsOk, Held, AllHeld, Wired, ListsOk, WaitFor.WaitChannels.Contents;
      HeadFacts(queue, item, rest);
      InvLists(sys);
      HeldIsCounted(sys, queue);
      assert ([item] + rest)[1..] == rest;
      queues.RemoveHead(queue, item, sys, rest);
      Take(Pop(queue));
    }

    /** What one turn at the head of a queue does: pop it if it was fired before; otherwise fire it, and pop
        it unless it now waits. */
    ghost predicate IsTurnOf(s: Sys, s': Sys, steps: seq<SysStep>, queue: CmdqList, h: nat, fired: bool, ret: Retval) {
      && IsRun(s, steps) && s' == QueueProtocol.Run(s, steps) && IsTurn(steps, queue) && Drains(steps, queue, h)
      && Firings(steps) == (if fired then 0 else 1) && (steps[|steps| - 1].Fire? <==> !fired && ret == Wait)
      && (steps[|steps| - 1].Fire? ==> queue in s'.lists && |s'.lists[queue]| > 0 && s'.lists[queue][0] in s'.waiting)
    }

    lemma PopTurn(s: Sys, queue: CmdqList, h: nat)
      requires Enabled(s, Pop(queue))
      ensures IsTurnOf(s, Apply(s, Pop(queue)), [Pop(queue)], queue, h, true, Normal)
    {
      hide Apply, Enabled;
      RunOfOne(s, Pop(queue));
      FiringsOfOne(Pop(queue));
    }

    lemma WaitTurn(s: Sys, st: SysStep, queue: CmdqList, h: nat)
      requires st.Fire? && st.queue == queue && |st.hooks| <= h && Enabled(s, st) && Answered(s, st).ret == Wait
      requires var s' := Apply(s, st); queue in s'.lists && |s'.lists[queue]| > 0 && s'.lists[queue][0] in s'.waiting
      ensures IsTurnOf(s, Apply(s, st), [st], queue, h, false, Wait)
    {
      hide Apply, Enabled, Answered;
      RunOfOne(s, st);
      FiringsOfOne(st);
    }

    lemma FullTurn(s: Sys, st: SysStep, queue: CmdqList, h: nat, ret: Retval)
      requires st.Fire? && st.queue == queue && |st.hooks| <= h && Enabled(s, st) && ret != Wait
      requires Enabled(Apply(s, st), Pop(queue))
      ensures IsTurnOf(s, Apply(Apply(s, st), Pop(queue)), [st, Pop(queue)], queue, h, false, ret)
    {
      hide Apply, Enabled;
      RunTwo(s, st, Pop(queue));
      FiringsOfOne(st);
      FiringsOfOne(Pop(queue));
      FiringsCompose([st], [Pop(queue)]);
      assert [st] + [Pop(queue)] == [st, Pop(queue)];
    }

    /** One turn of the loop that runs a queue whose head does not wait: fire the head if that has not
        been done, and pop it unless it now waits. */
    method Turn(queue: CmdqList, item: CmdqItem, around: Surroundings, ghost h: nat, ghost rest: seq<CmdqItem>)
      returns (ret: Retval, ghost steps: seq<SysStep>)
      requires Valid() && queue in sys.lists && sys.lists[queue] == [item] + rest && !item.waiting
      requires queues.HooksWithin(h) && ClientSet(around.found) <= queues.scope.clients
      modifies `sys, queues`scope, queues`number, queue`list, item`next, item`client, item`fired, sys.known`waiting
      modifies queues.scope.clients`references, queues.scope.states`references, queues.scope.lists`references
      modifies channels, channels.tree.Values
      ensures Valid() && forall x :: x in channels.tree.Values ==> x in old(channels.tree.Values) || fresh(x)
      ensures queues.Wider(old(queues.scope))
      ensures forall x :: x in queues.scope.states ==> x in old(queues.scope.states) || fresh(x)
      ensures forall x :: x in sys.known ==> x in old(sys.known) || fresh(x)
      ensures IsTurnOf(old(sys), sys, steps, queue, h, old(item.fired), ret)
    {
      hide CommandQueues.Matches, CommandQueues.HookLists, WaitFor.WaitChannels.Contents;
      hide WaitFor.WaitChannels.Valid, Inv, RefsOk, Apply, Enabled, Answered, Wired;
      hide CommandQueues.HooksWithin, ClientSet, IsTurnOf;
      if item.fired {
        ghost var from := sys;
        ret := Normal;
        PopHead(queue, item, rest);
        PopTurn(from, queue, h);
        steps := [Pop(queue)];
      } else {
        ghost var table := queues.GetTable(h);
        ret, steps := FireTurn(queue, item, around, h, table, rest);
      }
    }

    /** A turn that fires the head. */
    method FireTurn(queue: CmdqList, item: CmdqItem, around: Surroundings, ghost h: nat, ghost table: HookTable,
                    ghost rest: seq<CmdqItem>)
      returns (ret: Retval, ghost steps: seq<SysStep>)
      requires Valid() && queue in sys.lists && sys.lists[queue] == [item] + rest && !item.waiting && !item.fired
      requires queues.HooksAre(h, table) && ClientSet(around.found) <= queues.scope.clients
      modifies `sys, queues`scope, queues`number, queue`list, item`next, item`client, item`fired, sys.known`waiting
      modifies queues.scope.clients`references, queues.scope.states`references, queues.scope.lists`references
      modifies channels, channels.tree.Values
      ensures Valid() && forall x :: x in channels.tree.Values ==> x in old(channels.tree.Values) || fresh(x)
      ensures queues.Wider(old(queues.scope))
      ensures forall x :: x in queues.scope.states ==> x in old(queues.scope.states) || fresh(x)
      ensures forall x :: x in sys.known ==> x in old(sys.known) || fresh(x)
      ensures IsTurnOf(old(sys), sys, steps, queue, h, false, ret)
    {
      hide CommandQueues.Matches, CommandQueues.HookLists, WaitFor.WaitChannels.Contents;
      hide WaitFor.WaitChannels.Valid, Inv, RefsOk, Apply, Enabled, Answered, Wired;
      hide ClientSet, IsTurnOf, CommandQueues.HooksAre, CommandQueues.HookCommands;
      hide HasHooks;
      ghost var from, st := sys, FlushChannels;
      ret, st := FireHead(queue, item, around, h, table, rest);
      FiredHead(from, st, item, rest);
      steps := EndTurn(queue, item, h, ret, from, st);
    }

    /** Pop the head that has just been fired, unless it waits. */
    method EndTurn(queue: CmdqList, item: CmdqItem, ghost h: nat, ret: Retval, ghost from: Sys, ghost st: SysStep)
      returns (ghost steps: seq<SysStep>)
      requires Valid() && queue in sys.lists && |sys.lists[queue]| > 0
      requires sys.lists[queue] == [item] + sys.lists[queue][1..]
      requires item in sys.log && (item in sys.waiting <==> ret == Wait)
      requires st.Fire? && st.queue == queue && |st.hooks| <= h && Enabled(from, st)
      requires sys == Apply(from, st) && Answered(from, st).ret == ret
      modifies `sys, queue`list
      modifies queues.scope.clients`references, queues.scope.states`references, queues.scope.lists`references
      ensures Valid() && sys.known == old(sys.known) && IsTurnOf(from, sys, steps, queue, h, false, ret)
    {
      hide CommandQueues.Matches, CommandQueues.HookLists, WaitFor.WaitChannels.Contents;
      hide WaitFor.WaitChannels.Valid, Inv, RefsOk, Apply, Enabled, Answered, Wired, IsTurnOf;
      if ret == Wait {
        WaitTurn(from, st, queue, h);
        steps := [st];
      } else {
        FinishTurn(queue, item);
        FullTurn(from, st, queue, h, ret);
        steps := [st, Pop(queue)];
      }
    }

    /** Pop the head that has just been fired. */
    method FinishTurn(queue: CmdqList, item: CmdqItem)
      requires Valid() && queue in sys.lists && |sys.lists[queue]| > 0
      requires sys.lists[queue] == [item] + sys.lists[queue][1..]
      requires item in sys.log && item !in sys.waiting
      modifies `sys, queue`list
      modifies queues.scope.clients`references, queues.scope.states`references, queues.scope.lists`references
      ensures Valid() && Enabled(old(sys), Pop(queue)) && sys == Apply(old(sys), Pop(queue))
      ensures sys.known == old(sys.known)
    {
      hide CommandQueues.Matches, Inv, RefsOk, Apply, Enabled, Wired;
      ghost var behind := sys.lists[queue][1..];
      HeadFacts(queue, item, behind);
      PopHead(queue, item, behind);
    }

    /** The head that has been fired is still the head, and waits if it was told to. */
    lemma FiredHead(s: Sys, st: SysStep, item: CmdqItem, rest: seq<CmdqItem>)
      requires st.Fire? && Enabled(s, st) && s.lists[st.queue] == [item] + rest
      ensures var s' := Apply(s, st);
        && s'.lists.Keys == s.lists.Keys && |s'.lists[st.queue]| > 0 && s'.lists[st.queue][0] == item
        && s'.lists[st.queue] == [item] + s'.lists[st.queue][1..]
        && (item in s'.waiting <==> Answered(s, st).ret == Wait) && item in s'.log
    {
      hide Executed, Queued, TakenAway, Following, Runner, HookClient;
      QueuedApart(s, s, st.hooks, HookClient(s, st));
    }

    /** Run a client's queue until it is empty or its head waits. The trace is the run of the protocol
        that this is; it fires and pops heads of this queue only. The items that were fired are counted,
        but for one that now waits. */
    method Next(c: Client?, surroundings: nat -> Surroundings, ghost h: nat)
      returns (items: nat, ghost trace: seq<SysStep>)
      requires Valid() && queues.QueueOf(c) in sys.lists && queues.HooksWithin(h)
      requires forall n :: ClientSet(surroundings(n).found) <= queues.scope.clients
      modifies `sys, queues`scope, queues`number, queues.QueueOf(c)`list, sys.known, channels, channels.tree.Values
      modifies queues.scope.clients`references, queues.scope.states`references, queues.scope.lists`references
      ensures Valid() && queues.QueueOf(c) in sys.lists
      ensures IsRun(old(sys), trace) && sys == QueueProtocol.Run(old(sys), trace)
      ensures Drains(trace, queues.QueueOf(c), h)
      ensures var queue := queues.QueueOf(c);
        && (|queue.list| > 0 ==> queue.list[0] in sys.waiting)
        && (EndsFiring(trace) ==> |queue.list| > 0)
        && items == Firings(trace) - if EndsFiring(trace) then 1 else 0
    {
      hide CommandQueues.Matches, CommandQueues.HookLists, Inv, RefsOk, Apply, Enabled, IsRun;
      hide QueueProtocol.Run, Drains, IsTurn, Left, IsTurnOf, Wired, ClientSet, HasRun;
      hide WaitFor.WaitChannels.Contents, WaitFor.WaitChannels.Valid, Firings, EndsFiring, HookSize;
      var queue := queues.QueueOf(c);
      items, trace := 0, [];
      ghost var from := sys;
      NothingRun(from, queue, h);
      QueueFacts(queue);
      while |queue.list| > 0 && !queue.list[0].waiting
        invariant Valid() && queue in sys.lists && queue.list == sys.lists[queue]
        invariant queues.Wider(old(queues.scope))
        invariant forall x :: x in queues.scope.states ==> x in old(queues.scope.states) || fresh(x)
        invariant forall x :: x in sys.known ==> x in old(sys.known) || fresh(x)
        invariant forall x :: x in channels.tree.Values ==> x in old(channels.tree.Values) || fresh(x)
        invariant HasRun(from, sys, trace, queue, h, items)
        invariant |queue.list| > 0 ==> (queue.list[0].waiting <==> queue.list[0] in sys.waiting)
        decreases Left(sys, queue, h).0, Left(sys, queue, h).1
      {
        items, trace := NextTurn(queue, surroundings(queues.number), h, from, trace, items);
        QueueFacts(queue);
      }
      RunIsDone(from, sys, trace, queue, h, items);
    }

    /** Take a turn, and count its item if it was fired and does not wait. */
    method NextTurn(queue: CmdqList, around: Surroundings, ghost h: nat, ghost from: Sys, ghost before: seq<SysStep>,
                    count: nat)
      returns (items: nat, ghost trace: seq<SysStep>)
      requires Valid() && queue in sys.lists && queue.list == sys.lists[queue]
      requires |queue.list| > 0 && !queue.list[0].waiting
      requires queue.list[0] !in sys.waiting
      requires queues.HooksWithin(h) && ClientSet(around.found) <= queues.scope.clients
      requires HasRun(from, sys, before, queue, h, count)
      modifies `sys, queues`scope, queues`number, queue`list, sys.known, channels, channels.tree.Values
      modifies queues.scope.clients`references, queues.scope.states`references, queues.scope.lists`references
      ensures Valid() && queue in sys.lists
      ensures forall x :: x in channels.tree.Values ==> x in old(channels.tree.Values) || fresh(x)
      ensures queues.Wider(old(queues.scope))
      ensures forall x :: x in queues.scope.states ==> x in old(queues.scope.states) || fresh(x)
      ensures forall x :: x in sys.known ==> x in old(sys.known) || fresh(x)
      ensures HasRun(from, sys, trace, queue, h, items)
      ensures var (w, n), (w', n') := Left(old(sys), queue, h), Left(sys, queue, h); w' < w || (w' == w && n' < n)
    {
      hide CommandQueues.Matches, CommandQueues.HookLists, WaitFor.WaitChannels.Contents;
      hide WaitFor.WaitChannels.Valid, Inv, RefsOk, Apply, Enabled, IsRun, QueueProtocol.Run, Drains;
      hide IsTurn, Left, IsTurnOf, Wired, ClientSet, HasRun, Firings, EndsFiring, CommandQueues.HooksWithin;
      var item := queue.list[0];
      var fired := item.fired;
      ghost var rest, was := queue.list[1..], sys;
      assert queue.list == [item] + rest;
      HeadFacts(queue, item, rest);
      var ret;
      ghost var steps;
      ret, steps := Turn(queue, item, around, h, rest);
      TurnIsTaken(from, was, sys, before, steps, queue, h, count, fired, ret);
      trace := before + steps;
      items := count + if !fired && ret != Wait then 1 else 0;
    }

    lemma QueueFacts(queue: CmdqList)
      requires Valid() && queue in sys.lists
      ensures queue.list == sys.lists[queue]
      ensures |queue.list| > 0 ==>
        queue.list[0] in sys.known && (queue.list[0].waiting <==> queue.list[0] in sys.waiting)
    {
      if |queue.list| > 0 {
        HeadIsKnown(sys, queue);
      }
    }

    /** The queue has been run for some turns. */
    ghost predicate HasRun(from: Sys, s: Sys, trace: seq<SysStep>, queue: CmdqList, h: nat, items: nat) {
      && Inv(from) && IsRun(from, trace) && s == QueueProtocol.Run(from, trace)
      && Drains(trace, queue, h) && queue in s.lists
      && items == Firings(trace) - (if EndsFiring(trace) then 1 else 0)
      && (EndsFiring(trace) ==> |s.lists[queue]| > 0 && s.lists[queue][0] in s.waiting)
    }

    lemma NothingRun(s: Sys, queue: CmdqList, h: nat)
      requires Inv(s) && queue in s.lists
      ensures HasRun(s, s, [], queue, h, 0)
    {
      hide Inv;
      NoTurnTaken(s, queue, h);
    }

    lemma RunIsDone(from: Sys, s: Sys, trace: seq<SysStep>, queue: CmdqList, h: nat, items: nat)
      requires HasRun(from, s, trace, queue, h, items)
      ensures IsRun(from, trace) && s == QueueProtocol.Run(from, trace) && Drains(trace, queue, h)
      ensures items == Firings(trace) - (if EndsFiring(trace) then 1 else 0)
      ensures EndsFiring(trace) ==> |s.lists[queue]| > 0
    {
    }

    lemma TurnIsTaken(from: Sys, s: Sys, s': Sys, trace: seq<SysStep>, steps: seq<SysStep>, queue: CmdqList, h: nat,
                      items: nat,
                      fired: bool, ret: Retval)
      requires HasRun(from, s, trace, queue, h, items) && queue in s.lists
      requires |s.lists[queue]| > 0 ==> s.lists[queue][0] !in s.waiting
      requires IsTurnOf(s, s', steps, queue, h, fired, ret)
      ensures HasRun(from, s', trace + steps, queue, h, items + if !fired && ret != Wait then 1 else 0)
      ensures queue in s'.lists
      ensures var (w, n), (w', n') := Left(s, queue, h), Left(s', queue, h); w' < w || (w' == w && n' < n)
    {
      hide Inv, IsRun, QueueProtocol.Run, Drains, Left;
      TurnTaken(from, trace, steps, queue, h);
      FiringsCompose(trace, steps);
    }
  }
}
