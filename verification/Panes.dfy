/** Exchanging two panes and rotating the panes of a window: the panes move, and every place in the
    window keeps its layout cell and its geometry. */
module Panes {
  import opened Common

  class LayoutCell {
    var pane: Pane?

    constructor ()
      ensures pane == null
    {
      pane := null;
    }
  }

  datatype Geometry = Geometry(xoff: int, yoff: int, sx: nat, sy: nat)

  class Pane {
    var cell: LayoutCell?
    var geometry: Geometry
    var floating: bool
    var window: Window?

    constructor (geometry: Geometry)
      ensures this.geometry == geometry && cell == null && !floating && window == null
    {
      this.geometry, cell, floating, window := geometry, null, false, null;
    }
  }

  /** What belongs to a place in the list of panes. */
  datatype Slot = Slot(cell: LayoutCell?, geometry: Geometry)

  ghost function SlotsOf(panes: seq<Pane>): (s: seq<Slot>)
    reads panes
    ensures |s| == |panes| && forall k :: 0 <= k < |s| ==> s[k] == Slot(panes[k].cell, panes[k].geometry)
  {
    seq(|panes|, k requires 0 <= k < |panes| reads panes => Slot(panes[k].cell, panes[k].geometry))
  }

  ghost function FloatingOf(panes: seq<Pane>): (s: seq<bool>)
    reads panes
    ensures |s| == |panes| && forall k :: 0 <= k < |s| ==> s[k] == panes[k].floating
  {
    seq(|panes|, k requires 0 <= k < |panes| reads panes => panes[k].floating)
  }

  ghost function CellsOf(panes: seq<Pane>): set<LayoutCell>
    reads panes`cell
  {
    set p | p in panes && p.cell != null :: p.cell
  }

  /** Every pane that has a cell is the pane of its cell. */
  ghost predicate CellsOk(panes: seq<Pane>)
    reads panes`cell, CellsOf(panes)`pane
  {
    forall p :: p in panes && p.cell != null ==> (assert p.cell in CellsOf(panes); p.cell.pane == p)
  }

  /** A tail queue of panes. */
  class PaneList {
    var list: seq<Pane>

    constructor (list: seq<Pane>)
      ensures this.list == list
    {
      this.list := list;
    }

    method Previous(p: Pane) returns (q: Pane?)
      requires p in list
      ensures q == if IndexOf(list, p) == 0 then null else list[IndexOf(list, p) - 1]
    {
      var k := IndexOf(list, p);
      q := null;
      if k > 0 {
        q := list[k - 1];
      }
    }

    method Remove(p: Pane)
      modifies this
      ensures list == Without(old(list), p)
    {
      list := Without(list, p);
    }

    method Replace(p: Pane, q: Pane)
      modifies this
      ensures list == Replaced(old(list), p, q)
    {
      list := Replaced(list, p, q);
    }

    method InsertHead(p: Pane)
      modifies this
      ensures list == [p] + old(list)
    {
      list := [p] + list;
    }

    method InsertAfter(p: Pane, q: Pane)
      modifies this
      ensures list == InsertedAfter(old(list), p, q)
    {
      list := InsertedAfter(list, p, q);
    }
  }

  /** Exchange the places of two panes, each in its list. */
  method ExchangePlaces(src: PaneList, dst: PaneList, x: Pane, y: Pane)
    requires Distinct(src.list) && Distinct(dst.list) && x in src.list && y in dst.list && x != y
    requires src != dst ==> y !in src.list && x !in dst.list
    modifies src, dst
    ensures src.list == Exchanged(old(src.list), x, y) && dst.list == Exchanged(old(dst.list), x, y)
  {
    hide Exchanged, IndexOf, Distinct, Without, Replaced, InsertedAfter;
    if src == dst {
      ExchangeInOne(dst.list, x, y);
    } else {
      ExchangeInTwo(src.list, x, dst.list, y);
    }
    var previous := dst.Previous(y);
    dst.Remove(y);
    src.Replace(x, y);
    if previous == x {
      previous := y;
    }
    if previous == null {
      dst.InsertHead(x);
    } else {
      dst.InsertAfter(previous, x);
    }
  }

  class Window {
    const panes: PaneList
    const zIndex: PaneList
    var active: Pane

    constructor (pane: Pane)
      requires pane.cell == null
      ensures Valid() && panes.list == [pane] && zIndex.list == [pane] && active == pane
    {
      panes := new PaneList([pane]);
      zIndex := new PaneList([pane]);
      active := pane;
    }

    /** The panes are different, each is the pane of its cell, and one of them is active. */
    ghost predicate Valid()
      reads this, panes, zIndex, panes.list`cell, CellsOf(panes.list)`pane
    {
      && panes != zIndex && Distinct(panes.list) && Distinct(zIndex.list) && active in panes.list
      && CellsOk(panes.list)
    }
  }

  /** Two windows do not share panes or lists. */
  ghost predicate Apart(v: Window, w: Window)
    reads v.panes, v.zIndex, w.panes, w.zIndex
  {
    && v.panes != w.panes && v.zIndex != w.zIndex && v.panes != w.zIndex && v.zIndex != w.panes
    && (forall p :: p in v.panes.list ==> p !in w.panes.list)
    && (forall p :: p in v.zIndex.list ==> p !in w.zIndex.list)
  }

  /** Exchange the layout cells of two panes, and their geometry, their floating flags and their windows. */
  method ExchangeSlots(srcW: Window, src: Pane, dstW: Window, dst: Pane)
    requires src != dst && src.cell != null && dst.cell != null && src.cell != dst.cell
    modifies src, dst, src.cell`pane, dst.cell`pane
    ensures src.cell == old(dst.cell) && dst.cell == old(src.cell)
    ensures src.cell != null && dst.cell != null && src.cell.pane == src && dst.cell.pane == dst
    ensures src.geometry == old(dst.geometry) && dst.geometry == old(src.geometry)
    ensures src.floating == old(dst.floating) && dst.floating == old(src.floating)
    ensures src.window == dstW && dst.window == srcW
  {
    var srcCell, dstCell := src.cell, dst.cell;
    srcCell.pane := dst;
    dst.cell := srcCell;
    dstCell.pane := src;
    src.cell := dstCell;
    if src.floating != dst.floating {
      src.floating := !src.floating;
      dst.floating := !dst.floating;
    }
    src.window := dstW;
    dst.window := srcW;
    var geometry := src.geometry;
    src.geometry := dst.geometry;
    dst.geometry := geometry;
  }

  /** The slots and floating flags of a list in which two panes have been exchanged, with their slots. */
  lemma SlotsStay(before: seq<Pane>, after: seq<Pane>, src: Pane, dst: Pane, slots: seq<Slot>, floating: seq<bool>)
    requires after == Exchanged(before, src, dst) && |slots| == |floating| == |before|
    requires forall k :: 0 <= k < |before| ==>
      var p := if before[k] == src then dst else if before[k] == dst then src else before[k];
      slots[k] == Slot(p.cell, p.geometry) && floating[k] == p.floating
    ensures SlotsOf(after) == slots && FloatingOf(after) == floating
  {
  }

  /** The cells of a list in which two panes have been exchanged, when those two are right. */
  lemma CellsStay(before: seq<Pane>, after: seq<Pane>, src: Pane, dst: Pane)
    requires after == Exchanged(before, src, dst)
    requires src.cell != null && src.cell.pane == src && dst.cell != null && dst.cell.pane == dst
    requires forall k :: 0 <= k < |before| && before[k] != src && before[k] != dst ==>
      before[k].cell != null ==> before[k].cell.pane == before[k]
    ensures CellsOk(after)
  {
    forall p | p in after && p.cell != null ensures p.cell.pane == p {
      var k :| 0 <= k < |after| && after[k] == p;
      assert p == src || p == dst || p == before[k];
    }
  }

  /** The slots and cells of a list of panes, when two of them have exchanged theirs and their places. */
  lemma ListStays(l: seq<Pane>, src: Pane, dst: Pane, slots: seq<Slot>, floating: seq<bool>)
    requires |slots| == |floating| == |l|
    requires forall k :: 0 <= k < |l| ==>
      var p := if l[k] == src then dst else if l[k] == dst then src else l[k];
      slots[k] == Slot(p.cell, p.geometry) && floating[k] == p.floating
    requires src.cell != null && src.cell.pane == src && dst.cell != null && dst.cell.pane == dst
    requires forall k :: 0 <= k < |l| && l[k] != src && l[k] != dst && l[k].cell != null ==> l[k].cell.pane == l[k]
    ensures SlotsOf(Exchanged(l, src, dst)) == slots && FloatingOf(Exchanged(l, src, dst)) == floating
    ensures CellsOk(Exchanged(l, src, dst))
  {
    hide Exchanged, SlotsOf, FloatingOf, CellsOk;
    SlotsStay(l, Exchanged(l, src, dst), src, dst, slots, floating);
    CellsStay(l, Exchanged(l, src, dst), src, dst);
  }

  /** Exchange the slots of two panes of two lists, or of one. */
  method ExchangeSlotsOf(srcW: Window, src: Pane, dstW: Window, dst: Pane, ghost a: seq<Pane>, ghost b: seq<Pane>)
    requires src != dst && src.cell != null && dst.cell != null
    requires src in a && dst in b && CellsOk(a) && CellsOk(b)
    modifies src, dst, src.cell`pane, dst.cell`pane
    ensures SlotsOf(Exchanged(a, src, dst)) == old(SlotsOf(a))
    ensures SlotsOf(Exchanged(b, src, dst)) == old(SlotsOf(b))
    ensures FloatingOf(Exchanged(a, src, dst)) == old(FloatingOf(a))
    ensures FloatingOf(Exchanged(b, src, dst)) == old(FloatingOf(b))
    ensures CellsOk(Exchanged(a, src, dst)) && CellsOk(Exchanged(b, src, dst))
    ensures src.cell == old(dst.cell) && dst.cell == old(src.cell)
    ensures src.floating == old(dst.floating) && dst.floating == old(src.floating)
    ensures src.window == dstW && dst.window == srcW
  {
    hide Exchanged, SlotsOf, FloatingOf;
    ghost var slotsA, slotsB, floatingA, floatingB := SlotsOf(a), SlotsOf(b), FloatingOf(a), FloatingOf(b);
    assert forall k :: 0 <= k < |a| ==> a[k] in a;
    assert forall k :: 0 <= k < |b| ==> b[k] in b;
    ExchangeSlots(srcW, src, dstW, dst);
    ListStays(a, src, dst, slotsA, floatingA);
    ListStays(b, src, dst, slotsB, floatingB);
  }

  /** Exchange two panes, their places and their slots. */
  method ExchangePanes(srcW: Window, src: Pane, dstW: Window, dst: Pane)
    requires srcW.Valid() && dstW.Valid() && (srcW != dstW ==> Apart(srcW, dstW)) && src != dst
    requires src in srcW.panes.list && src in srcW.zIndex.list && dst in dstW.panes.list && dst in dstW.zIndex.list
    requires src.cell != null && dst.cell != null
    modifies srcW.panes, srcW.zIndex, dstW.panes, dstW.zIndex
    modifies src, dst, src.cell`pane, dst.cell`pane
    ensures srcW.panes.list == Exchanged(old(srcW.panes.list), src, dst)
    ensures dstW.panes.list == Exchanged(old(dstW.panes.list), src, dst)
    ensures srcW.zIndex.list == Exchanged(old(srcW.zIndex.list), src, dst)
    ensures dstW.zIndex.list == Exchanged(old(dstW.zIndex.list), src, dst)
    ensures SlotsOf(srcW.panes.list) == old(SlotsOf(srcW.panes.list))
    ensures SlotsOf(dstW.panes.list) == old(SlotsOf(dstW.panes.list))
    ensures FloatingOf(srcW.panes.list) == old(FloatingOf(srcW.panes.list))
    ensures FloatingOf(dstW.panes.list) == old(FloatingOf(dstW.panes.list))
    ensures CellsOk(srcW.panes.list) && CellsOk(dstW.panes.list)
    ensures src.cell == old(dst.cell) && dst.cell == old(src.cell)
    ensures src.floating == old(dst.floating) && dst.floating == old(src.floating)
    ensures src.window == dstW && dst.window == srcW
  {
    hide Distinct, Exchanged, SlotsOf, FloatingOf;
    ghost var a, b := srcW.panes.list, dstW.panes.list;
    ghost var slotsA, slotsB, floatingA, floatingB := SlotsOf(a), SlotsOf(b), FloatingOf(a), FloatingOf(b);
    ExchangePlaces(srcW.panes, dstW.panes, src, dst);
    ExchangePlaces(srcW.zIndex, dstW.zIndex, src, dst);
    assert CellsOk(a) && CellsOk(b);
    assert SlotsOf(a) == slotsA && SlotsOf(b) == slotsB && FloatingOf(a) == floatingA && FloatingOf(b) == floatingB;
    ExchangeSlotsOf(srcW, src, dstW, dst, a, b);
  }

  datatype Retval = Normal | Error

  /** One pane is right behind another, and the first behind the last. */
  ghost predicate Follows(l: seq<Pane>, p: Pane, q: Pane) {
    p in l && q == if IndexOf(l, p) + 1 < |l| then l[IndexOf(l, p) + 1] else l[0]
  }

  datatype Which = Given | Next | Previous

  /** The pane to exchange with the target: the given one, or the neighbour in the list, around its ends. */
  method SourcePane(given: Pane, w: Window, dst: Pane, which: Which) returns (src: Pane)
    requires dst in w.panes.list && Distinct(w.panes.list)
    ensures which == Given ==> src == given
    ensures which == Next ==> Follows(w.panes.list, dst, src)
    ensures which == Previous ==> Follows(w.panes.list, src, dst)
  {
    src := given;
    var list := w.panes.list;
    var k := IndexOf(list, dst);
    if which == Next {
      src := if k + 1 < |list| then list[k + 1] else list[0];
    } else if which == Previous {
      var j := if k > 0 then k - 1 else |list| - 1;
      src := list[j];
      IndexIs(list, j);
    }
  }

  /** The active panes after an exchange: the exchanged ones, or if they are to stay behind, the ones that
      came in the place of the active ones. */
  method ActivateExchanged(srcW: Window, src: Pane, dstW: Window, dst: Pane, detached: bool)
    modifies srcW`active, dstW`active
    ensures forall w :: w in {srcW, dstW} ==>
      && CellsOk(w.panes.list) == old(CellsOk(w.panes.list)) && SlotsOf(w.panes.list) == old(SlotsOf(w.panes.list))
      && FloatingOf(w.panes.list) == old(FloatingOf(w.panes.list))
    ensures srcW != dstW ==>
      && srcW.active == (if detached && old(srcW.active) != src then old(srcW.active) else dst)
      && dstW.active == (if detached && old(dstW.active) != dst then old(dstW.active) else src)
    ensures srcW == dstW ==>
      srcW.active == if !detached then dst else if old(srcW.active) in {src, dst} then src else old(srcW.active)
  {
    if !detached {
      if srcW != dstW {
        srcW.active := dst;
        dstW.active := src;
      } else {
        srcW.active := dst;
      }
    } else {
      if srcW.active == src {
        srcW.active := dst;
      }
      if dstW.active == dst {
        dstW.active := src;
      }
    }
  }

  /** Exchange two panes of one window or of two; two floating panes cannot be exchanged. */
  method SwapPane(srcW: Window, src: Pane, dstW: Window, dst: Pane, detached: bool) returns (ret: Retval)
    requires srcW.Valid() && dstW.Valid() && (srcW != dstW ==> Apart(srcW, dstW))
    requires src in srcW.panes.list && src in srcW.zIndex.list && dst in dstW.panes.list && dst in dstW.zIndex.list
    requires src.cell != null && dst.cell != null
    modifies srcW`active, dstW`active, srcW.panes, srcW.zIndex, dstW.panes, dstW.zIndex
    modifies src, dst, src.cell`pane, dst.cell`pane
    ensures srcW.Valid() && dstW.Valid() && (srcW != dstW ==> Apart(srcW, dstW))
    ensures ret == Error <==> src != dst && old(src.floating) && old(dst.floating)
    ensures var kept := ret == Error || src == dst; var a, b := old(srcW.panes.list), old(dstW.panes.list);
      && srcW.panes.list == (if kept then a else Exchanged(a, src, dst))
      && dstW.panes.list == (if kept then b else Exchanged(b, src, dst))
    ensures var kept := ret == Error || src == dst; var a, b := old(srcW.zIndex.list), old(dstW.zIndex.list);
      && srcW.zIndex.list == (if kept then a else Exchanged(a, src, dst))
      && dstW.zIndex.list == (if kept then b else Exchanged(b, src, dst))
    ensures SlotsOf(srcW.panes.list) == old(SlotsOf(srcW.panes.list))
    ensures SlotsOf(dstW.panes.list) == old(SlotsOf(dstW.panes.list))
    ensures FloatingOf(srcW.panes.list) == old(FloatingOf(srcW.panes.list))
    ensures FloatingOf(dstW.panes.list) == old(FloatingOf(dstW.panes.list))
    ensures src == dst || ret == Error ==>
      && srcW.active == old(srcW.active) && dstW.active == old(dstW.active)
      && src.window == old(src.window) && dst.window == old(dst.window)
      && src.cell == old(src.cell) && dst.cell == old(dst.cell)
      && src.floating == old(src.floating) && dst.floating == old(dst.floating)
    ensures src != dst && ret == Normal ==>
      && src.window == dstW && dst.window == srcW
      && src.cell == old(dst.cell) && dst.cell == old(src.cell)
      && src.floating == old(dst.floating) && dst.floating == old(src.floating)
    ensures src != dst && ret == Normal && srcW != dstW ==>
      && srcW.active == (if detached && old(srcW.active) != src then old(srcW.active) else dst)
      && dstW.active == (if detached && old(dstW.active) != dst then old(dstW.active) else src)
    ensures src != dst && ret == Normal && srcW == dstW ==>
      srcW.active == if !detached then dst else if old(srcW.active) in {src, dst} then src else old(srcW.active)
  {
    hide Distinct, Exchanged, SlotsOf, FloatingOf, CellsOk;
    if src == dst {
      return Normal;
    }
    if src.floating && dst.floating {
      return Error;
    }
    ghost var a, b, x, y := srcW.panes.list, dstW.panes.list, srcW.zIndex.list, dstW.zIndex.list;
    ExchangedBoth(a, b, src, dst);
    ExchangedBoth(x, y, src, dst);
    ExchangePanes(srcW, src, dstW, dst);
    ActivateExchanged(srcW, src, dstW, dst, detached);
    return Normal;
  }

  /** Two panes that have been exchanged are in each other's lists, and exchanging them again restores these. */
  lemma SwappedAgain(a: seq<Pane>, b: seq<Pane>, src: Pane, dst: Pane)
    requires src in a && dst in b
    ensures dst in Exchanged(a, src, dst) && src in Exchanged(b, src, dst)
    ensures Exchanged(Exchanged(a, src, dst), src, dst) == a && Exchanged(Exchanged(b, src, dst), src, dst) == b
  {
    hide Exchanged;
    ExchangedMembers(a, src, dst);
    ExchangedMembers(b, src, dst);
    ExchangedTwice(a, src, dst);
    ExchangedTwice(b, src, dst);
  }

  /** Exchange two panes, and exchange them again from where they are then. The panes, their order and all
      that belongs to them is as before. The active panes are too if they are left alone, except that in
      one window it is the source if it was either of the two. */
  method SwapBack(srcW: Window, src: Pane, dstW: Window, dst: Pane, detached: bool) returns (ret: Retval)
    requires srcW.Valid() && dstW.Valid() && (srcW != dstW ==> Apart(srcW, dstW))
    requires src in srcW.panes.list && src in srcW.zIndex.list && dst in dstW.panes.list && dst in dstW.zIndex.list
    requires src.cell != null && dst.cell != null
    modifies srcW`active, dstW`active, srcW.panes, srcW.zIndex, dstW.panes, dstW.zIndex
    modifies src, dst, src.cell`pane, dst.cell`pane
    ensures srcW.Valid() && dstW.Valid()
    ensures forall w :: w in {srcW, dstW} ==>
      && w.panes.list == old(w.panes.list) && w.zIndex.list == old(w.zIndex.list)
      && SlotsOf(w.panes.list) == old(SlotsOf(w.panes.list))
      && FloatingOf(w.panes.list) == old(FloatingOf(w.panes.list))
    ensures ret == Error <==> src != dst && old(src.floating) && old(dst.floating)
    ensures src != dst && ret == Normal ==> src.window == srcW && dst.window == dstW
    ensures src == dst || ret == Error ==> src.window == old(src.window) && dst.window == old(dst.window)
    ensures src == dst || ret == Error || (detached && srcW != dstW) ==>
      srcW.active == old(srcW.active) && dstW.active == old(dstW.active)
    ensures src != dst && ret == Normal && !detached ==>
      if srcW == dstW then srcW.active == dst else srcW.active == src && dstW.active == dst
    ensures src != dst && ret == Normal && detached && srcW == dstW ==>
      srcW.active == if old(srcW.active) in {src, dst} then src else old(srcW.active)
  {
    hide Exchanged, Distinct, SlotsOf, FloatingOf, CellsOk, CellsOf, IndexOf;
    ghost var a, b, x, y := srcW.panes.list, dstW.panes.list, srcW.zIndex.list, dstW.zIndex.list;
    ret := SwapPane(srcW, src, dstW, dst, detached);
    if src == dst || ret == Error {
      ret := SwapPane(srcW, src, dstW, dst, detached);
    } else {
      SwappedAgain(a, b, src, dst);
      SwappedAgain(x, y, src, dst);
      ret := SwapPane(dstW, src, srcW, dst, detached);
    }
  }

  // ----- lists -----

  function Without<T(==)>(l: seq<T>, x: T): seq<T> {
    var k := IndexOf(l, x);
    if k < |l| then l[..k] + l[k + 1..] else l
  }

  function Replaced<T(==)>(l: seq<T>, x: T, y: T): seq<T> {
    var k := IndexOf(l, x);
    if k < |l| then l[k := y] else l
  }

  function InsertedAfter<T(==)>(l: seq<T>, x: T, y: T): seq<T> {
    var k := IndexOf(l, x);
    if k < |l| then l[..k + 1] + [y] + l[k + 1..] else l
  }

  /** Two elements exchanged, wherever they are. */
  function Exchanged<T(==)>(l: seq<T>, x: T, y: T): (r: seq<T>)
    ensures |r| == |l|
    ensures forall k :: 0 <= k < |l| ==> r[k] == if l[k] == x then y else if l[k] == y then x else l[k]
  {
    seq(|l|, k requires 0 <= k < |l| => if l[k] == x then y else if l[k] == y then x else l[k])
  }

  lemma ExchangedTwice<T>(l: seq<T>, x: T, y: T)
    ensures Exchanged(Exchanged(l, x, y), x, y) == l
  {
  }

  lemma ExchangedKeeps<T>(l: seq<T>, x: T, y: T)
    requires Distinct(l)
    ensures Distinct(Exchanged(l, x, y))
  {
  }

  lemma ExchangedMembers<T>(l: seq<T>, x: T, y: T)
    ensures forall p :: p in Exchanged(l, x, y) <==>
      (p == y && x in l) || (p == x && y in l) || (p in l && p != x && p != y)
  {
    var r := Exchanged(l, x, y);
    forall p | (p == y && x in l) || (p == x && y in l) || (p in l && p != x && p != y) ensures p in r {
      var q := if p == y && x in l then x else if p == x && y in l then y else p;
      var k :| 0 <= k < |l| && l[k] == q;
      assert r[k] == p;
    }
  }

  /** After an exchange two lists are still lists without duplicates, and disjoint if they were. */
  lemma ExchangedBoth<T>(l: seq<T>, m: seq<T>, x: T, y: T)
    requires Distinct(l) && Distinct(m) && x in l && y in m
    ensures Distinct(Exchanged(l, x, y)) && Distinct(Exchanged(m, x, y))
    ensures y in Exchanged(l, x, y) && x in Exchanged(m, x, y)
    ensures forall p :: p in l && p != x && p != y ==> p in Exchanged(l, x, y)
    ensures forall p :: p in m && p != x && p != y ==> p in Exchanged(m, x, y)
    ensures l == m ==> x in Exchanged(l, x, y)
    ensures (forall p :: p in l ==> p !in m) ==> forall p :: p in Exchanged(l, x, y) ==> p !in Exchanged(m, x, y)
  {
    hide Exchanged, Distinct;
    ExchangedMembers(l, x, y);
    ExchangedMembers(m, x, y);
    ExchangedKeeps(l, x, y);
    ExchangedKeeps(m, x, y);
  }

  /** The list operations of the exchange: take y out of its list, put it in the place of x in its
      list, and put x behind what y was behind, or first. */
  function Reinserted<T(==)>(r: seq<T>, behind: seq<T>, x: T, y: T): seq<T> {
    if |behind| == 0 then [x] + r
    else InsertedAfter(r, if behind[|behind| - 1] == x then y else behind[|behind| - 1], x)
  }

  /** In one list this exchanges x and y, also when one is right behind the other. */
  lemma ExchangeInOne<T>(l: seq<T>, x: T, y: T)
    requires Distinct(l) && x in l && y in l && x != y
    ensures Reinserted(Replaced(Without(l, y), x, y), l[..IndexOf(l, y)], x, y) == Exchanged(l, x, y)
  {
    hide IndexOf, Distinct, Exchanged, InsertedAfter, Without, Replaced, Reinserted;
    var i, at, w := IndexOf(l, x), IndexOf(l, y), Without(l, y);
    var j := if i < at then i else i - 1;
    WithoutAt(l, at);
    WithoutDistinct(l, y);
    ReplacedAt(w, j, y);
    ReplacedDistinct(w, j, y);
    var r := w[j := y];
    PutBack(l, w, r, i, at, j);
    InsertBehind(r, l[..at], at, x, y);
  }

  lemma WithoutAt<T>(l: seq<T>, at: nat)
    requires Distinct(l) && at < |l|
    ensures var w := Without(l, l[at]);
      |w| == |l| - 1 && forall k :: 0 <= k < |w| ==> w[k] == l[if k < at then k else k + 1]
  {
    hide IndexOf;
    IndexIs(l, at);
  }

  lemma ReplacedAt<T>(w: seq<T>, j: nat, y: T)
    requires Distinct(w) && j < |w|
    ensures Replaced(w, w[j], y) == w[j := y]
  {
    hide IndexOf;
    IndexIs(w, j);
  }

  lemma InsertBehind<T>(r: seq<T>, behind: seq<T>, at: nat, x: T, y: T)
    requires Distinct(r) && |behind| == at <= |r|
    requires at > 0 ==> r[at - 1] == if behind[at - 1] == x then y else behind[at - 1]
    ensures Reinserted(r, behind, x, y) == r[..at] + [x] + r[at..]
  {
    hide IndexOf, Distinct;
    if at > 0 {
      IndexIs(r, at - 1);
    }
  }

  lemma InsertedAt<T>(r: seq<T>, at: nat, x: T)
    requires at <= |r|
    ensures var t := r[..at] + [x] + r[at..];
      && |t| == |r| + 1
      && forall k :: 0 <= k < |t| ==> t[k] == if k < at then r[k] else if k == at then x else r[k - 1]
  {
  }

  lemma PutBack<T>(l: seq<T>, w: seq<T>, r: seq<T>, i: nat, at: nat, j: nat)
    requires Distinct(l) && i < |l| && at < |l| && i != at && j == if i < at then i else i - 1
    requires |w| == |l| - 1 && forall k :: 0 <= k < |w| ==> w[k] == l[if k < at then k else k + 1]
    requires r == w[j := l[at]]
    ensures r[..at] + [l[i]] + r[at..] == Exchanged(l, l[i], l[at])
    ensures at > 0 ==> r[at - 1] == if l[at - 1] == l[i] then l[at] else l[at - 1]
  {
    hide Exchanged;
    var t, e := r[..at] + [l[i]] + r[at..], Exchanged(l, l[i], l[at]);
    InsertedAt(r, at, l[i]);
    forall k | 0 <= k < |l| ensures t[k] == e[k] {
      assert k != i ==> l[k] != l[i];
      assert k != at ==> l[k] != l[at];
    }
  }

  lemma WithoutDistinct<T>(l: seq<T>, x: T)
    requires Distinct(l)
    ensures Distinct(Without(l, x)) && x !in Without(l, x)
  {
    var k, w := IndexOf(l, x), Without(l, x);
    if k < |l| {
      assert forall j :: 0 <= j < |w| ==> w[j] == l[if j < k then j else j + 1];
    }
  }

  lemma ReplacedDistinct<T>(l: seq<T>, k: nat, y: T)
    requires Distinct(l) && k < |l| && y !in l
    ensures Distinct(l[k := y])
  {
  }

  /** In two lists it exchanges x and y in both. */
  lemma ExchangeInTwo<T>(l: seq<T>, x: T, m: seq<T>, y: T)
    requires Distinct(l) && Distinct(m) && x in l && y in m && y !in l && x !in m
    ensures Replaced(l, x, y) == Exchanged(l, x, y)
    ensures Reinserted(Without(m, y), m[..IndexOf(m, y)], x, y) == Exchanged(m, x, y)
  {
    hide IndexOf, Distinct, Exchanged, InsertedAfter, Reinserted;
    var i, at := IndexOf(l, x), IndexOf(m, y);
    ExchangedOne(l, i, y);
    ExchangedOne(m, at, x);
    ExchangedBack(m, x, y);
    WithoutDistinct(m, y);
    var w := m[..at] + m[at + 1..];
    assert w == Without(m, y);
    assert at > 0 ==> w[at - 1] == m[at - 1] != x;
    InsertBehind(w, m[..at], at, x, y);
    assert w[..at] + [x] + w[at..] == m[at := x];
  }

  /** When only one of the two is in a list, it is replaced. */
  lemma ExchangedOne<T>(l: seq<T>, k: nat, y: T)
    requires Distinct(l) && k < |l| && y !in l
    ensures Exchanged(l, l[k], y) == l[k := y]
  {
  }

  lemma ExchangedBack<T>(l: seq<T>, x: T, y: T)
    ensures Exchanged(l, x, y) == Exchanged(l, y, x)
  {
  }

  // ----- rotation -----

  function Down<T>(l: seq<T>): (r: seq<T>)
    ensures |r| == |l|
  {
    if |l| == 0 then l else [l[|l| - 1]] + l[..|l| - 1]
  }

  function Up<T>(l: seq<T>): (r: seq<T>)
    ensures |r| == |l|
  {
    if |l| == 0 then l else l[1..] + [l[0]]
  }

  lemma UpUndoesDown<T>(l: seq<T>)
    ensures Up(Down(l)) == l && Down(Up(l)) == l
  {
  }

  function Times<T>(l: seq<T>, n: nat): (r: seq<T>)
    ensures |r| == |l|
  {
    if n == 0 then l else Down(Times(l, n - 1))
  }

  /** Rotated as often as there are panes, and no less often, all are back in their places. */
  lemma {:induction false} RotatedTimes<T>(l: seq<T>, n: nat)
    requires n <= |l|
    ensures Times(l, n) == l[|l| - n..] + l[..|l| - n]
  {
    if n > 0 {
      RotatedTimes(l, n - 1);
      var m := |l| - n;
      assert l[..m + 1] == l[..m] + [l[m]];
      assert l[m..] == [l[m]] + l[m + 1..];
    }
  }

  /** Give a pane the slot of another, or a saved one. */
  method TakeSlot(p: Pane, cell: LayoutCell?, geometry: Geometry)
    modifies p`cell, p`geometry, Only(cell)`pane
    ensures p.cell == cell && p.geometry == geometry && (cell != null ==> cell.pane == p)
  {
    p.cell := cell;
    if p.cell != null {
      p.cell.pane := p;
    }
    p.geometry := geometry;
  }

  function Only(cell: LayoutCell?): set<LayoutCell> {
    if cell == null then {} else {cell}
  }

  ghost function CellsIn(slots: seq<Slot>): set<LayoutCell> {
    set k: nat | k < |slots| && slots[k].cell != null :: slots[k].cell
  }

  /** No cell is in two slots. */
  ghost predicate CellsApart(slots: seq<Slot>) {
    forall j, k :: 0 <= j < k < |slots| && slots[j].cell != null ==> slots[j].cell != slots[k].cell
  }

  /** A pane has a slot and is the pane of its cell. */
  ghost predicate Has(p: Pane, slot: Slot)
    reads p, Only(slot.cell)`pane
  {
    p.cell == slot.cell && p.geometry == slot.geometry && (slot.cell != null ==> slot.cell.pane == p)
  }

  /** The first i panes have the slots of the ones behind them. The pane at i still has its own, but may
      no longer be the pane of its cell. */
  ghost predicate ShiftedUp(ps: seq<Pane>, slots: seq<Slot>, i: nat)
    reads ps, CellsIn(slots)`pane
  {
    && |slots| == |ps| && i < |ps| && ps[i].cell == slots[i].cell && ps[i].geometry == slots[i].geometry
    && (forall k :: 0 <= k < i ==> Has(ps[k], slots[k + 1]))
    && (forall k :: i < k < |ps| ==> Has(ps[k], slots[k]))
  }

  lemma SlotsApart(ps: seq<Pane>)
    requires Distinct(ps) && CellsOk(ps)
    ensures forall k :: 0 <= k < |ps| ==>
      ps[k] in Elements(ps) && (SlotsOf(ps)[k].cell != null ==> SlotsOf(ps)[k].cell in CellsOf(ps))
    ensures CellsApart(SlotsOf(ps)) && forall k :: 0 <= k < |ps| ==> Has(ps[k], SlotsOf(ps)[k])
  {
    assert forall k :: 0 <= k < |ps| ==> ps[k] in ps;
  }

  lemma HaveSlots(ps: seq<Pane>, slots: seq<Slot>)
    requires |slots| == |ps| && forall k :: 0 <= k < |ps| ==> Has(ps[k], slots[k])
    ensures SlotsOf(ps) == slots && CellsOk(ps)
  {
  }

  method ShiftOneUp(ps: seq<Pane>, ghost slots: seq<Slot>, i: nat, p: Pane, behind: Pane)
    requires ShiftedUp(ps, slots, i) && i + 1 < |ps| && Distinct(ps) && CellsApart(slots)
    requires p == ps[i] && behind == ps[i + 1]
    modifies p`cell, p`geometry, Only(behind.cell)`pane
    ensures ShiftedUp(ps, slots, i + 1)
  {
    assert Has(behind, slots[i + 1]);
    TakeSlot(p, behind.cell, behind.geometry);
  }

  method CloseUp(ps: seq<Pane>, ghost slots: seq<Slot>, p: Pane, cell: LayoutCell?, geometry: Geometry)
    requires |ps| > 0 && ShiftedUp(ps, slots, |ps| - 1) && Distinct(ps) && CellsApart(slots)
    requires p == ps[|ps| - 1] && slots[0] == Slot(cell, geometry)
    modifies p`cell, p`geometry, Only(cell)`pane
    ensures SlotsOf(ps) == Up(slots) && CellsOk(ps)
  {
    hide SlotsOf, CellsOk;
    TakeSlot(p, cell, geometry);
    HaveSlots(ps, Up(slots));
  }

  /** Every pane takes the slot of the one behind it, and the last one that of the first. */
  method ShiftSlotsUp(ps: seq<Pane>)
    requires |ps| > 0 && Distinct(ps) && CellsOk(ps)
    modifies Elements(ps)`cell, Elements(ps)`geometry, CellsOf(ps)`pane
    ensures SlotsOf(ps) == Up(old(SlotsOf(ps))) && CellsOk(ps)
  {
    hide CellsOk, SlotsOf, Distinct, CellsApart, Has, Up, Elements;
    ghost var slots := SlotsOf(ps);
    SlotsApart(ps);
    var cell, geometry, i := ps[0].cell, ps[0].geometry, 0;
    assert slots[0] == Slot(cell, geometry);
    while i + 1 < |ps|
      invariant ShiftedUp(ps, slots, i)
    {
      HasIts(ps[i + 1], slots[i + 1]);
      ShiftOneUp(ps, slots, i, ps[i], ps[i + 1]);
      i := i + 1;
    }
    CloseUp(ps, slots, ps[i], cell, geometry);
  }

  lemma HasIts(p: Pane, slot: Slot)
    requires Has(p, slot)
    ensures p.cell == slot.cell
  {
  }

  /** The panes behind i have the slots of the ones before them. The pane at i still has its own, but may
      no longer be the pane of its cell. */
  ghost predicate ShiftedDown(ps: seq<Pane>, slots: seq<Slot>, i: nat)
    reads ps, CellsIn(slots)`pane
  {
    && |slots| == |ps| && i < |ps| && ps[i].cell == slots[i].cell && ps[i].geometry == slots[i].geometry
    && (forall k :: i < k < |ps| ==> Has(ps[k], slots[k - 1]))
    && (forall k :: 0 <= k < i ==> Has(ps[k], slots[k]))
  }

  method ShiftOneDown(ps: seq<Pane>, ghost slots: seq<Slot>, i: nat, p: Pane, before: Pane)
    requires ShiftedDown(ps, slots, i) && 0 < i && Distinct(ps) && CellsApart(slots)
    requires p == ps[i] && before == ps[i - 1]
    modifies p`cell, p`geometry, Only(before.cell)`pane
    ensures ShiftedDown(ps, slots, i - 1)
  {
    assert Has(before, slots[i - 1]);
    TakeSlot(p, before.cell, before.geometry);
  }

  method CloseDown(ps: seq<Pane>, ghost slots: seq<Slot>, p: Pane, cell: LayoutCell?, geometry: Geometry)
    requires |ps| > 0 && ShiftedDown(ps, slots, 0) && Distinct(ps) && CellsApart(slots)
    requires p == ps[0] && slots[|slots| - 1] == Slot(cell, geometry)
    modifies p`cell, p`geometry, Only(cell)`pane
    ensures SlotsOf(ps) == Down(slots) && CellsOk(ps)
  {
    hide SlotsOf, CellsOk;
    TakeSlot(p, cell, geometry);
    HaveSlots(ps, Down(slots));
  }

  /** Every pane takes the slot of the one before it, and the first one that of the last. */
  method ShiftSlotsDown(ps: seq<Pane>)
    requires |ps| > 0 && Distinct(ps) && CellsOk(ps)
    modifies Elements(ps)`cell, Elements(ps)`geometry, CellsOf(ps)`pane
    ensures SlotsOf(ps) == Down(old(SlotsOf(ps))) && CellsOk(ps)
  {
    hide CellsOk, SlotsOf, Distinct, CellsApart, Has, Down, Elements;
    ghost var slots := SlotsOf(ps);
    SlotsApart(ps);
    var i := |ps| - 1;
    var cell, geometry := ps[i].cell, ps[i].geometry;
    assert slots[i] == Slot(cell, geometry);
    assert ShiftedDown(ps, slots, i);
    while i > 0
      invariant 0 <= i && ShiftedDown(ps, slots, i)
    {
      HasIts(ps[i - 1], slots[i - 1]);
      ShiftOneDown(ps, slots, i, ps[i], ps[i - 1]);
      i := i - 1;
    }
    CloseDown(ps, slots, ps[i], cell, geometry);
  }

  lemma DownAt<T>(l: seq<T>)
    ensures forall k :: 0 <= k < |l| ==> Down(l)[k] == l[if k == 0 then |l| - 1 else k - 1]
  {
  }

  lemma UpAt<T>(l: seq<T>)
    ensures forall k :: 0 <= k < |l| ==> Up(l)[k] == l[if k == |l| - 1 then 0 else k + 1]
  {
  }

  lemma SameElements<T>(l: seq<T>, r: seq<T>)
    requires (forall k :: 0 <= k < |l| ==> l[k] in r) && forall k :: 0 <= k < |r| ==> r[k] in l
    ensures Elements(l) == Elements(r)
  {
  }

  lemma DownFacts<T>(l: seq<T>)
    requires |l| > 0 && Distinct(l)
    ensures Distinct(Down(l)) && Elements(Down(l)) == Elements(l)
  {
    hide Down, Elements;
    DownAt(l);
    var d, n := Down(l), |l|;
    forall k | 0 <= k < n ensures l[k] in d {
      assert d[if k == n - 1 then 0 else k + 1] == l[k];
    }
    SameElements(d, l);
  }

  lemma UpFacts<T>(l: seq<T>)
    requires |l| > 0 && Distinct(l)
    ensures Distinct(Up(l)) && Elements(Up(l)) == Elements(l)
  {
    hide Up, Elements;
    UpAt(l);
    var u, n := Up(l), |l|;
    forall k | 0 <= k < n ensures l[k] in u {
      assert u[if k == 0 then n - 1 else k - 1] == l[k];
    }
    SameElements(u, l);
  }

  lemma SlotsDown(l: seq<Pane>)
    ensures SlotsOf(Down(l)) == Down(SlotsOf(l))
  {
    hide Down, SlotsOf;
    var s, r := SlotsOf(l), SlotsOf(Down(l));
    DownAt(l);
    DownAt(s);
    forall k | 0 <= k < |l| ensures r[k] == Down(s)[k] {
      assert r[k] == Slot(Down(l)[k].cell, Down(l)[k].geometry);
    }
  }

  lemma SlotsUp(l: seq<Pane>)
    ensures SlotsOf(Up(l)) == Up(SlotsOf(l))
  {
    hide Up, SlotsOf;
    var s, r := SlotsOf(l), SlotsOf(Up(l));
    UpAt(l);
    UpAt(s);
    forall k | 0 <= k < |l| ensures r[k] == Up(s)[k] {
      assert r[k] == Slot(Up(l)[k].cell, Up(l)[k].geometry);
    }
  }

  /** The active pane after a rotation: the one in the place of the old one. */
  lemma NewActive(l: seq<Pane>, a: Pane)
    requires Distinct(l) && a in l
    ensures var d := Down(l); var k := IndexOf(d, a);
      k < |d| && d[IndexOf(l, a)] == if k == 0 then d[|d| - 1] else d[k - 1]
    ensures var u := Up(l); var k := IndexOf(u, a);
      k < |u| && u[IndexOf(l, a)] == if k + 1 == |u| then u[0] else u[k + 1]
  {
    hide IndexOf, Distinct, Down, Up;
    var i, n := IndexOf(l, a), |l|;
    DownFacts(l);
    UpFacts(l);
    RotatedAt(l, i);
    IndexIs(Down(l), if i == n - 1 then 0 else i + 1);
    IndexIs(Up(l), if i == 0 then n - 1 else i - 1);
  }

  lemma RotatedAt<T>(l: seq<T>, i: nat)
    requires i < |l|
    ensures Down(l)[if i == |l| - 1 then 0 else i + 1] == l[i] == Up(l)[if i == 0 then |l| - 1 else i - 1]
  {
  }

  lemma RotatedFacts(l: seq<Pane>, r: seq<Pane>, down: bool)
    requires |l| > 0 && Distinct(l) && CellsOk(l) && r == if down then Down(l) else Up(l)
    ensures Distinct(r) && Elements(r) == Elements(l)
    ensures SlotsOf(r) == if down then Down(SlotsOf(l)) else Up(SlotsOf(l))
  {
    hide Down, Up, SlotsOf, Distinct;
    DownFacts(l);
    UpFacts(l);
    SlotsDown(l);
    SlotsUp(l);
  }

  lemma SameCells(l: seq<Pane>, r: seq<Pane>)
    requires Elements(r) == Elements(l)
    ensures CellsOf(r) == CellsOf(l) && CellsOk(r) == CellsOk(l)
    ensures forall p :: p in r <==> p in l
  {
    assert forall p :: p in r <==> p in Elements(r);
    assert forall p :: p in l <==> p in Elements(l);
  }

  /** Move the last pane of a list to its front, or the first to its end. */
  method Rotate(list: PaneList, down: bool)
    requires |list.list| > 0
    modifies list
    ensures list.list == if down then Down(old(list.list)) else Up(old(list.list))
    ensures SlotsOf(list.list) == old(SlotsOf(if down then Down(list.list) else Up(list.list)))
    ensures CellsOf(list.list) == old(CellsOf(if down then Down(list.list) else Up(list.list)))
    ensures CellsOk(list.list) == old(CellsOk(if down then Down(list.list) else Up(list.list)))
  {
    if down {
      list.list := [list.list[|list.list| - 1]] + list.list[..|list.list| - 1];
    } else {
      list.list := list.list[1..] + [list.list[0]];
    }
  }

  /** Rotate the panes of a window. Every place keeps its cell and its geometry, and the active place
      stays active. */
  method RotateWindow(w: Window, down: bool)
    requires w.Valid()
    modifies w`active, w.panes, Elements(w.panes.list)`cell, Elements(w.panes.list)`geometry, CellsOf(w.panes.list)`pane
    ensures w.Valid()
    ensures w.panes.list == if down then Down(old(w.panes.list)) else Up(old(w.panes.list))
    ensures SlotsOf(w.panes.list) == old(SlotsOf(w.panes.list))
    ensures w.active == w.panes.list[IndexOf(old(w.panes.list), old(w.active))]
  {
    hide SlotsOf, IndexOf, Distinct, CellsOf, CellsOk, Down, Up, Elements;
    NewActive(w.panes.list, w.active);
    RotatePanes(w.panes, down);
    Activate(w, down);
  }

  /** Rotate a list of panes, and move the slots the other way. */
  method RotatePanes(panes: PaneList, down: bool)
    requires |panes.list| > 0 && Distinct(panes.list) && CellsOk(panes.list)
    modifies panes, Elements(panes.list)`cell, Elements(panes.list)`geometry, CellsOf(panes.list)`pane
    ensures panes.list == if down then Down(old(panes.list)) else Up(old(panes.list))
    ensures SlotsOf(panes.list) == old(SlotsOf(panes.list)) && CellsOk(panes.list) && Distinct(panes.list)
  {
    hide SlotsOf, IndexOf, Distinct, CellsOf, CellsOk, Down, Up, Elements;
    ghost var l := panes.list;
    ghost var r := if down then Down(l) else Up(l);
    RotatedFacts(l, r, down);
    SameCells(l, r);
    UpUndoesDown(SlotsOf(l));
    Rotate(panes, down);
    if down {
      ShiftSlotsUp(panes.list);
    } else {
      ShiftSlotsDown(panes.list);
    }
  }

  /** Rotate a window and rotate it back: the panes, their order, their slots and the active pane are as
      before. */
  method RotateBack(w: Window, down: bool)
    requires w.Valid()
    modifies w`active, w.panes, Elements(w.panes.list)`cell, Elements(w.panes.list)`geometry, CellsOf(w.panes.list)`pane
    ensures w.Valid()
    ensures w.panes.list == old(w.panes.list) && w.active == old(w.active)
    ensures SlotsOf(w.panes.list) == old(SlotsOf(w.panes.list))
  {
    hide SlotsOf, IndexOf, Distinct, CellsOf, CellsOk, Down, Up, Elements;
    ghost var l, slots := w.panes.list, SlotsOf(w.panes.list);
    ghost var i := IndexOf(l, w.active);
    ghost var r := if down then Down(l) else Up(l);
    RotatedFacts(l, r, down);
    UpUndoesDown(l);
    CellsAre(l, slots);
    RotateWindow(w, down);
    CellsAre(r, slots);
    IndexIs(r, i);
    RotateWindow(w, !down);
  }

  lemma CellsAre(l: seq<Pane>, slots: seq<Slot>)
    requires SlotsOf(l) == slots
    ensures CellsOf(l) == CellsIn(slots)
  {
    assert forall k :: 0 <= k < |l| ==> slots[k].cell == l[k].cell && l[k] in l;
  }

  /** Activate the pane before the active one, or the one behind it, around the ends. */
  method Activate(w: Window, down: bool)
    requires w.active in w.panes.list
    modifies w`active
    ensures var list := w.panes.list; var k := IndexOf(list, old(w.active));
      w.active ==
        if down then if k == 0 then list[|list| - 1] else list[k - 1]
        else if k + 1 == |list| then list[0] else list[k + 1]
    ensures SlotsOf(w.panes.list) == old(SlotsOf(w.panes.list)) && CellsOk(w.panes.list) == old(CellsOk(w.panes.list))
  {
    var list := w.panes.list;
    var k := IndexOf(list, w.active);
    if down {
      w.active := if k == 0 then list[|list| - 1] else list[k - 1];
    } else {
      w.active := if k + 1 == |list| then list[0] else list[k + 1];
    }
  }
}
