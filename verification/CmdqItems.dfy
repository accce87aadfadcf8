/** The objects a command queue is made of. */
module CmdqItems {
  import opened Common
  import opened WaitChannelSpec
  import opened CmdLists

  class Client {
    const queue: CmdqList
    var references: int

    constructor (queue: CmdqList)
      ensures this.queue == queue && references == 1
    {
      this.queue, references := queue, 1;
    }
  }

  /** The context several items can share; hooks run in a state of their own with noHooks set. */
  class CmdqState {
    const noHooks: bool
    var references: int

    constructor (noHooks: bool)
      ensures this.noHooks == noHooks && references == 1
    {
      this.noHooks, references := noHooks, 1;
    }
  }

  datatype Kind =
    | Command(entry: Entry)
    | Callback(ret: Immediate)

  class CmdqItem {
    const kind: Kind
    const group: nat
    const state: CmdqState
    const cmdlist: CmdList?
    var client: Client?
    var queue: CmdqList?
    var next: CmdqItem?
    var fired: bool
    var waiting: bool

    constructor (kind: Kind, group: nat, state: CmdqState, cmdlist: CmdList?)
      ensures this.kind == kind && this.group == group && this.state == state && this.cmdlist == cmdlist
      ensures client == null && queue == null && next == null && !fired && !waiting
    {
      this.kind, this.group, this.state, this.cmdlist := kind, group, state, cmdlist;
      client, queue, next, fired, waiting := null, null, null, false, false;
    }

    /** Let the queue move past an item that is waiting. */
    method Continue()
      modifies this`waiting
      ensures !waiting
    {
      waiting := false;
    }
  }

  // ----- references -----

  /** Something that counts its references. */
  datatype Counted = OfClient(client: Client) | OfState(state: CmdqState) | OfList(list: CmdList)

  /** What an item that is queued for a client holds: its state, its command list if it has one, and the
      client if there is one. */
  function Held(i: CmdqItem, c: Client?): multiset<Counted> {
    multiset{OfState(i.state)}
    + (if i.cmdlist != null then multiset{OfList(i.cmdlist)} else multiset{})
    + (if c != null then multiset{OfClient(c)} else multiset{})
  }

  /** The clients that items are queued for. */
  type Clients = map<CmdqItem, Client?>

  function ClientIn(clients: Clients, i: CmdqItem): Client? {
    if i in clients then clients[i] else null
  }

  function AllHeld(l: seq<CmdqItem>, clients: Clients): multiset<Counted> {
    if |l| == 0 then multiset{} else Held(l[0], ClientIn(clients, l[0])) + AllHeld(l[1..], clients)
  }

  /** The objects whose references are followed. */
  datatype Scope = Scope(clients: set<Client>, states: set<CmdqState>, lists: set<CmdList>) {
    ghost predicate Counts(m: multiset<Counted>)
      reads clients`references, states`references, lists`references
    {
      && (forall c :: c in clients ==> c.references == m[OfClient(c)])
      && (forall s :: s in states ==> s.references == m[OfState(s)])
      && (forall l :: l in lists ==> l.references == m[OfList(l)])
    }

    predicate Covers(i: CmdqItem, c: Client?) {
      i.state in states && (i.cmdlist != null ==> i.cmdlist in lists) && (c != null ==> c in clients)
    }

    lemma CoveredSets(i: CmdqItem, c: Client?)
      requires Covers(i, c)
      ensures i.state in states && ListSet(i.cmdlist) <= lists && ClientSet(c) <= clients
    {
    }
  }

  function ClientSet(c: Client?): set<Client> {
    if c == null then {} else {c}
  }

  function ListSet(l: CmdList?): set<CmdList> {
    if l == null then {} else {l}
  }

  lemma HeldCounts(i: CmdqItem, c: Client?, m: multiset<Counted>)
    requires Held(i, c) <= m
    ensures var less := m - Held(i, c);
      && (forall d :: less[OfClient(d)] == m[OfClient(d)] - if d == c then 1 else 0)
      && (forall s :: less[OfState(s)] == m[OfState(s)] - if s == i.state then 1 else 0)
      && (forall l :: less[OfList(l)] == m[OfList(l)] - if l == i.cmdlist then 1 else 0)
  {
    assert forall x :: Held(i, c)[x] <= m[x];
  }

  /** Drop the references of an item. */
  method DropHeld(item: CmdqItem, ghost scope: Scope, ghost m: multiset<Counted>)
    requires scope.Covers(item, item.client) && scope.Counts(m) && Held(item, item.client) <= m
    modifies ClientSet(item.client)`references, ListSet(item.cmdlist)`references, item.state`references
    ensures scope.Counts(m - Held(item, item.client))
  {
    hide Held;
    HeldCounts(item, item.client, m);
    if item.client != null {
      item.client.references := item.client.references - 1;
    }
    if item.cmdlist != null {
      item.cmdlist.references := item.cmdlist.references - 1;
    }
    item.state.references := item.state.references - 1;
  }

  // ----- lists -----

  /** A chain of new items, linked by next. */
  ghost predicate IsChain(first: CmdqItem, chain: seq<CmdqItem>)
    reads chain`next
  {
    && |chain| > 0 && chain[0] == first && Distinct(chain)
    && (forall k :: 0 <= k < |chain| - 1 ==> chain[k].next == chain[k + 1])
    && chain[|chain| - 1].next == null
  }

  ghost predicate Unqueued(chain: seq<CmdqItem>)
    reads chain`fired, chain`waiting
  {
    forall i :: i in chain ==> !i.fired && !i.waiting
  }

  /** The list without the items of a group. */
  function Without(l: seq<CmdqItem>, g: nat): seq<CmdqItem> {
    if |l| == 0 then []
    else if l[0].group == g then Without(l[1..], g)
    else [l[0]] + Without(l[1..], g)
  }

  /** The items of a group. */
  function OfGroup(l: seq<CmdqItem>, g: nat): seq<CmdqItem> {
    if |l| == 0 then []
    else (if l[0].group == g then [l[0]] else []) + OfGroup(l[1..], g)
  }

  lemma WithoutFacts(l: seq<CmdqItem>, g: nat)
    ensures forall i {:trigger i in Without(l, g)} :: i in Without(l, g) ==> i in l && i.group != g
    ensures forall i {:trigger i in l} :: i in l && i.group != g ==> i in Without(l, g)
    ensures Distinct(l) ==> Distinct(Without(l, g))
  {
    if |l| > 0 {
      WithoutFacts(l[1..], g);
      assert l == [l[0]] + l[1..];
      if Distinct(l) {
        assert Distinct(l[1..]) && l[0] !in l[1..];
        assert l[0] !in Without(l[1..], g);
      }
    }
  }

  class CmdqList {
    var list: seq<CmdqItem>

    /** No item twice, and every item knows its queue. */
    ghost predicate Valid()
      reads `list, list`queue
    {
      Distinct(list) && forall i :: i in list ==> i.queue == this
    }

    /** Splicing new items into a list. */
    lemma Spliced(l: seq<CmdqItem>, at: nat, chain: seq<CmdqItem>)
      requires at <= |l| && Distinct(l) && Distinct(chain) && forall i :: i in chain ==> i !in l
      ensures var m := l[..at] + chain + l[at..];
        Distinct(m) && forall i :: i in m ==> i in l || i in chain
    {
      assert l == l[..at] + l[at..];
      assert forall k :: 0 <= k < |l| ==> l[k] in l;
      assert forall k :: 0 <= k < |chain| ==> chain[k] in chain;
    }

    constructor ()
      ensures Valid() && list == []
    {
      list := [];
    }

    /** Put a chain of items, one after another, at the end. */
    method Append(c: Client?, first: CmdqItem, ghost chain: seq<CmdqItem>) returns (last: CmdqItem)
      requires Valid() && IsChain(first, chain) && forall i :: i in chain ==> i !in list
      modifies this`list, chain, ClientSet(c)`references
      ensures Valid() && list == old(list) + chain && last == chain[|chain| - 1]
      ensures forall i :: i in chain ==>
        i.client == c && i.queue == this && i.fired == old(i.fired) && i.waiting == old(i.waiting)
      ensures c != null ==> c.references == old(c.references) + |chain|
    {
      var item: CmdqItem? := first;
      ghost var k := 0;
      while item != null
        invariant 0 <= k <= |chain| && item == if k < |chain| then chain[k] else null
        invariant list == old(list) + chain[..k]
        invariant forall j :: k <= j < |chain| - 1 ==> chain[j].next == chain[j + 1]
        invariant k < |chain| ==> chain[|chain| - 1].next == null
        invariant forall j :: 0 <= j < k ==> chain[j].client == c && chain[j].queue == this
        invariant forall i :: i in chain ==> i.fired == old(i.fired) && i.waiting == old(i.waiting)
        invariant c != null ==> c.references == old(c.references) + k
        decreases |chain| - k
      {
        var next := item.next;
        item.next := null;
        if c != null {
          c.references := c.references + 1;
        }
        item.client := c;
        item.queue := this;
        list := list + [item];
        item := next;
        k := k + 1;
      }
      assert chain[..k] == chain;
      Spliced(old(list), |old(list)|, chain);
      assert list == old(list)[..|old(list)|] + chain + old(list)[|old(list)|..];
      last := list[|list| - 1];
    }

    /** Link one item in behind another, whose place in the list is at, for a client. */
    method LinkAfter(at: nat, after: CmdqItem, item: CmdqItem, c: Client?)
      requires at < |list| && list[at] == after && item != after
      modifies this`list, item, after`next, ClientSet(c)`references
      ensures list == old(list)[..at + 1] + [item] + old(list)[at + 1..]
      ensures item.client == c && item.queue == this
      ensures item.fired == old(item.fired) && item.waiting == old(item.waiting)
      ensures c != null ==> c.references == old(c.references) + 1
    {
      item.next := after.next;
      after.next := item;
      if c != null {
        c.references := c.references + 1;
      }
      item.client := c;
      item.queue := this;
      list := list[..at + 1] + [item] + list[at + 1..];
    }

    /** Splice a chain of items in behind an item, whose place in the list is at, for its client. Returns
        the last item and its place. */
    method InsertAfter(at: nat, after: CmdqItem, first: CmdqItem, ghost chain: seq<CmdqItem>)
      returns (last: CmdqItem, place: nat)
      requires Valid() && at < |list| && list[at] == after
      requires IsChain(first, chain) && forall i :: i in chain ==> i !in list
      modifies this`list, chain, after`next, ClientSet(after.client)`references
      ensures Valid() && last == chain[|chain| - 1] && place == at + |chain|
      ensures list == old(list)[..at + 1] + chain + old(list)[at + 1..]
      ensures forall i :: i in chain ==>
        i.client == after.client && i.queue == this && i.fired == old(i.fired) && i.waiting == old(i.waiting)
      ensures after.client == old(after.client)
      ensures after.client != null ==>
        after.client.references == old(if after.client == null then 0 else after.client.references) + |chain|
    {
      var c, item: CmdqItem? := after.client, first;
      last := after;
      var k := 0;
      ghost var before, behind := list[..at + 1], list[at + 1..];
      assert after in list;
      assert list == before + chain[..0] + behind;
      while item != null
        invariant 0 <= k <= |chain| && item == if k < |chain| then chain[k] else null
        invariant last == if k == 0 then after else chain[k - 1]
        invariant list == before + chain[..k] + behind
        invariant forall j :: k <= j < |chain| - 1 ==> chain[j].next == chain[j + 1]
        invariant k < |chain| ==> chain[|chain| - 1].next == null
        invariant forall j :: 0 <= j < k ==> chain[j].client == c && chain[j].queue == this
        invariant forall i :: i in chain ==> i.fired == old(i.fired) && i.waiting == old(i.waiting)
        invariant c != null ==> c.references == old(c.references) + k
        decreases |chain| - k
      {
        var next := item.next;
        LinkAfter(at + k, last, item, c);
        assert chain[..k + 1] == chain[..k] + [chain[k]];
        last := item;
        item := next;
        k := k + 1;
      }
      assert chain[..k] == chain;
      place := at + k;
      Spliced(old(list), at + 1, chain);
    }

    /** Remove an item, whose place in the list is at, and drop what it holds; front and back are what is
        around it. */
    method Remove(at: nat, item: CmdqItem, ghost front: seq<CmdqItem>, ghost back: seq<CmdqItem>,
                  ghost scope: Scope, ghost m: multiset<Counted>)
      requires list == front + [item] + back && at == |front|
      requires scope.Covers(item, item.client) && scope.Counts(m) && Held(item, item.client) <= m
      modifies this`list, ClientSet(item.client)`references, ListSet(item.cmdlist)`references, item.state`references
      ensures list == front + back && scope.Counts(m - Held(item, item.client))
    {
      hide Scope.Covers, Held;
      DropHeld(item, scope, m);
      list := list[..at] + list[at + 1..];
    }

    /** Remove all items behind the head that share its group. */
    method RemoveGroup(item: CmdqItem, ghost rest: seq<CmdqItem>, ghost clients: Clients,
                       ghost scope: Scope, ghost m: multiset<Counted>)
      requires Valid() && list == [item] + rest
      requires forall i :: i in rest ==> ClientIn(clients, i) == i.client && scope.Covers(i, i.client)
      requires scope.Counts(m) && AllHeld(OfGroup(rest, item.group), clients) <= m
      modifies this`list, scope.clients`references, scope.states`references, scope.lists`references
      ensures Valid() && list == [item] + if item.group == 0 then rest else Without(rest, item.group)
      ensures scope.Counts(if item.group == 0 then m else m - AllHeld(OfGroup(rest, item.group), clients))
    {
      hide Held, AllHeld, OfGroup, Without, Scope.Counts, Scope.Covers;
      if item.group == 0 {
        return;
      }
      var k, g := 1, item.group;
      ghost var front, back, now := [item], rest, m;
      while k < |list|
        invariant list == front + back && k == |front|
        invariant [item] + Without(rest, g) == front + Without(back, g)
        invariant forall i :: i in back ==> ClientIn(clients, i) == i.client && scope.Covers(i, i.client)
        invariant scope.Counts(now) && AllHeld(OfGroup(back, g), clients) <= now
        invariant now - AllHeld(OfGroup(back, g), clients) == m - AllHeld(OfGroup(rest, g), clients)
        decreases |list| - k
      {
        var next := list[k];
        ghost var behind := back[1..];
        assert next == back[0] && back == [next] + behind;
        FirstOfGroup(back, g, clients, now);
        if next.group == g {
          scope.CoveredSets(next, next.client);
          Remove(k, next, front, behind, scope, now);
          now := now - Held(next, next.client);
        } else {
          front := front + [next];
          k := k + 1;
        }
        back := behind;
      }
      assert back == [] && list == front;
      NoneOfGroup(g, clients, now);
      WithoutKeepsDistinct(item, rest, g);
    }
  }

  lemma FirstOfGroup(l: seq<CmdqItem>, g: nat, clients: Clients, m: multiset<Counted>)
    requires |l| > 0 && AllHeld(OfGroup(l, g), clients) <= m
    ensures Without(l, g) == if l[0].group == g then Without(l[1..], g) else [l[0]] + Without(l[1..], g)
    ensures l[0].group != g ==> AllHeld(OfGroup(l, g), clients) == AllHeld(OfGroup(l[1..], g), clients)
    ensures l[0].group == g ==>
      var held, others := Held(l[0], ClientIn(clients, l[0])), AllHeld(OfGroup(l[1..], g), clients);
      held <= m && others <= m - held && m - held - others == m - AllHeld(OfGroup(l, g), clients)
  {
    hide Held;
    GroupHeld(l, g, clients);
    if l[0].group == g {
      TakenInTurn(m, Held(l[0], ClientIn(clients, l[0])), AllHeld(OfGroup(l[1..], g), clients));
    }
  }

  lemma GroupHeld(l: seq<CmdqItem>, g: nat, clients: Clients)
    requires |l| > 0
    ensures AllHeld(OfGroup(l, g), clients) ==
      (if l[0].group == g then Held(l[0], ClientIn(clients, l[0])) else multiset{})
      + AllHeld(OfGroup(l[1..], g), clients)
  {
    hide Held;
    var rest := OfGroup(l[1..], g);
    assert ([l[0]] + rest)[1..] == rest;
    assert OfGroup(l, g) == if l[0].group == g then [l[0]] + rest else rest;
  }

  lemma NoneOfGroup(g: nat, clients: Clients, m: multiset<Counted>)
    ensures Without([], g) == [] && m - AllHeld(OfGroup([], g), clients) == m
  {
  }

  lemma TakenInTurn<T>(m: multiset<T>, a: multiset<T>, b: multiset<T>)
    requires a + b <= m
    ensures a <= m && b <= m - a && m - a - b == m - (a + b)
  {
    assert forall x :: x in a ==> a[x] <= (a + b)[x] <= m[x];
  }

  lemma HeadIsNotBehind(i: CmdqItem, rest: seq<CmdqItem>)
    requires Distinct([i] + rest)
    ensures Distinct(rest) && i !in rest
  {
    var l := [i] + rest;
    assert l[0] == i && forall k :: 0 <= k < |rest| ==> l[k + 1] == rest[k];
    forall k | 0 <= k < |rest| ensures rest[k] != i {
      assert l[k + 1] != l[0];
    }
    forall j, k | 0 <= j < k < |rest| ensures rest[j] != rest[k] {
      assert l[j + 1] != l[k + 1];
    }
  }

  lemma WithoutKeepsDistinct(item: CmdqItem, rest: seq<CmdqItem>, g: nat)
    requires Distinct([item] + rest)
    ensures Distinct([item] + Without(rest, g)) && forall i :: i in Without(rest, g) ==> i in rest
  {
    HeadIsNotBehind(item, rest);
    WithoutFacts(rest, g);
    assert forall k :: 0 <= k < |Without(rest, g)| ==> Without(rest, g)[k] in Without(rest, g);
  }
}
