/** A pane's grid of lines, and the lines that recovery copies from its visible part to its history. */
module GridHistory {
  import opened Common

  /** A cell with its attributes; 0 is the default cell. */
  type Cell = int

  datatype Line = Line(cells: seq<Cell>, cellUsed: nat, flags: int, time: int)

  function CellAt(l: Line, x: nat): Cell {
    if x < |l.cells| then l.cells[x] else 0
  }

  /** Equal lines, whatever their times and however much of their cells is allocated. */
  ghost predicate LineEqual(a: Line, b: Line, sx: nat) {
    a.cellUsed == b.cellUsed && a.flags == b.flags && forall x: nat :: x < sx ==> CellAt(a, x) == CellAt(b, x)
  }

  ghost predicate LinesEqual(s: seq<Line>, t: seq<Line>, sx: nat) {
    |s| == |t| && forall k :: 0 <= k < |s| ==> LineEqual(s[k], t[k], sx)
  }

  function Last<T>(s: seq<T>, n: nat): seq<T> {
    if n < |s| then s[|s| - n..] else s
  }

  ghost predicate InHistory(h: seq<Line>, v: seq<Line>, sx: nat) {
    |v| <= |h| && LinesEqual(Last(h, |v|), v, sx)
  }

  /** The history after collecting down to the limit: exactly at the limit, one line goes too. */
  function Collected(h: seq<Line>, limit: nat): (r: seq<Line>)
    ensures r == Last(h, |r|) && |r| == Size(|h|, limit)
  {
    if |h| < limit then h
    else if |h| == limit && |h| > 0 then h[1..]
    else Last(h, limit)
  }

  /** How many lines are left of n. */
  function Size(n: nat, limit: nat): (m: nat)
    ensures m <= n
  {
    if n < limit then n else if n == limit > 0 then n - 1 else limit
  }

  /** The history after the visible lines have been preserved. */
  ghost function Preserved(h: seq<Line>, v: seq<Line>, sx: nat, limit: nat): seq<Line> {
    if |v| == 0 || InHistory(h, v, sx) then h else Collected(h + v, limit)
  }

  /** The visible lines are added to the history, and only its oldest lines are dropped, as many as are
      over the limit, or one if it is reached exactly. */
  lemma PreservedIsLast(h: seq<Line>, v: seq<Line>, sx: nat, limit: nat)
    requires |v| > 0 && !InHistory(h, v, sx)
    ensures var n := |h| + |v|;
      Preserved(h, v, sx, limit) == Last(h + v, if n < limit then n else if n == limit then limit - 1 else limit)
  {
  }

  lemma EndsWithItself(v: seq<Line>, sx: nat)
    ensures LinesEqual(v, v, sx)
  {
  }

  /** Preserving twice is preserving once, unless the history was empty and its limit is the number of
      the visible lines, of which there are at least two. */
  lemma PreservedTwice(h: seq<Line>, v: seq<Line>, sx: nat, limit: nat)
    ensures Preserved(Preserved(h, v, sx, limit), v, sx, limit) == Preserved(h, v, sx, limit)
      <==> !(|h| == 0 && |v| == limit >= 2)
  {
    hide InHistory, Collected, Last;
    var p := Preserved(h, v, sx, limit);
    FirstPreserved(h, v, sx, limit);
    if |v| > 0 && !InHistory(h, v, sx) && |p| < |v| {
      EndOfAppended(h, v, |p|);
      EndOfAppended(p, v, |p|);
    }
  }

  /** In the exceptional case the second time brings back the line that was dropped, and the third time
      changes nothing. */
  lemma PreservedThrice(h: seq<Line>, v: seq<Line>, sx: nat, limit: nat)
    requires |h| == 0 && |v| == limit >= 2
    ensures var once := Preserved(h, v, sx, limit); var twice := Preserved(once, v, sx, limit);
      once == v[1..] && twice == v && Preserved(twice, v, sx, limit) == twice
  {
    assert h + v == v;
    assert Last(v[1..] + v, limit) == v;
  }

  ghost function SavedPreserved(h: seq<Line>, saved: seq<Line>, sx: nat, limit: nat): seq<Line> {
    if |saved| > 0 && InHistory(h, saved, sx) then h else Collected(h + saved, limit)
  }

  /** The visible lines, compared by the width of the grid, and then the lines of a saved grid if there is
      one, compared by the larger width of the two. */
  ghost function AllPreserved(h: seq<Line>, v: seq<Line>, saved: Option<seq<Line>>, sx: nat, width: nat,
                              limit: nat): seq<Line> {
    var p := Preserved(h, v, sx, limit);
    if saved.None? then p else SavedPreserved(p, saved.value, width, limit)
  }

  /** Does a history that ended with the visible lines end with them after the saved lines were added? */
  ghost predicate StillEnds(v: seq<Line>, saved: seq<Line>, sx: nat) {
    if |v| <= |saved| then InHistory(saved, v, sx) else LinesEqual(v[|saved|..] + saved, v, sx)
  }

  /** Are the lines added to the history? */
  ghost predicate Adds(h: seq<Line>, v: seq<Line>, sx: nat) {
    |v| > 0 && !InHistory(h, v, sx)
  }

  /** Are any lines added when all are preserved? */
  ghost predicate AddsAny(h: seq<Line>, v: seq<Line>, saved: seq<Line>, sx: nat, width: nat, limit: nat) {
    Adds(h, v, sx) || Adds(Preserved(h, v, sx, limit), saved, width)
  }

  /** Nothing is visible or saved, or the history ended with the saved lines when they were to be added, or
      it still ends with the visible lines behind them. */
  ghost predicate Settled(h: seq<Line>, v: seq<Line>, saved: seq<Line>, sx: nat, width: nat, limit: nat) {
    || |v| == 0 || |saved| == 0
    || InHistory(Preserved(h, v, sx, limit), saved, width)
    || StillEnds(v, saved, sx)
  }

  /** With a saved grid, whatever the history is: preserving a second time adds no line exactly if the history
      is settled and has lines enough, as it always has if both grids are lower than the limit. Then it changes
      nothing, unless a saved grid without lines makes it collect once more. */
  lemma AllPreservedAgain(h: seq<Line>, v: seq<Line>, saved: seq<Line>, sx: nat, width: nat, limit: nat)
    ensures var p := AllPreserved(h, v, Some(saved), sx, width, limit);
      var q := AllPreserved(p, v, Some(saved), sx, width, limit);
      var again := AddsAny(p, v, saved, sx, width, limit);
      && (!again <==> |v| <= |p| && |saved| <= |p| && Settled(h, v, saved, sx, width, limit))
      && (|v| < limit && |saved| < limit ==> |v| <= |p| && |saved| <= |p|)
      && (!Settled(h, v, saved, sx, width, limit) ==> Adds(p, v, sx))
      && (!again ==> q == if |saved| == 0 then Collected(p, limit) else p)
  {
    hide LineEqual, InHistory, StillEnds, Collected, Last;
    var p1 := Preserved(h, v, sx, limit);
    var p := AllPreserved(h, v, Some(saved), sx, width, limit);
    FirstPreserved(h, v, sx, limit);
    if |saved| > 0 && InHistory(p1, saved, width) {
      EndIsThere(p1, saved, width);
    } else {
      EndsAfterSaved(h, v, saved, sx, limit);
      EndsIfLong(p1, saved, width, limit);
      assert |saved| == 0 ==> p + saved == p;
    }
  }

  lemma EndIsThere(h: seq<Line>, v: seq<Line>, sx: nat)
    requires InHistory(h, v, sx)
    ensures |v| <= |h|
  {
  }

  /** The history ends with the visible lines that were preserved, if it has as many. */
  lemma FirstPreserved(h: seq<Line>, v: seq<Line>, sx: nat, limit: nat)
    ensures var p := Preserved(h, v, sx, limit);
      (InHistory(p, v, sx) <==> |v| <= |p|) && (|v| < limit ==> |v| <= |p|)
  {
    hide LineEqual, Collected;
    if |v| > 0 && !InHistory(h, v, sx) {
      EndsIfLong(h, v, sx, limit);
    }
  }

  /** Collecting keeps the lines that were added, if it keeps as many, as it does below the limit. */
  lemma EndsIfLong(h: seq<Line>, v: seq<Line>, sx: nat, limit: nat)
    ensures var c := Collected(h + v, limit);
      (InHistory(c, v, sx) <==> |v| <= |c|) && (|v| < limit ==> |v| <= |c|)
  {
    hide LineEqual, Collected;
    var c := Collected(h + v, limit);
    if |v| <= |c| {
      AppendedEnds(h, v, sx);
      LastOfLast(h + v, |c|, |v|);
    }
  }

  lemma LastOfLast<T>(s: seq<T>, n: nat, m: nat)
    requires m <= n <= |s|
    ensures Last(Last(s, n), m) == Last(s, m)
  {
  }

  /** When the saved lines have been added, the history ends with the visible lines exactly if it has as many
      and these are what is behind them. */
  lemma EndsAfterSaved(h: seq<Line>, v: seq<Line>, saved: seq<Line>, sx: nat, limit: nat)
    ensures var c := Collected(Preserved(h, v, sx, limit) + saved, limit);
      && (|v| > 0 ==> (InHistory(c, v, sx) <==> |v| <= |c| && (|saved| == 0 || StillEnds(v, saved, sx))))
      && (|v| < limit ==> |v| <= |c|)
  {
    hide LineEqual, StillEnds, InHistory, Collected, Last;
    var p := Preserved(h, v, sx, limit);
    var c := Collected(p + saved, limit);
    FirstPreserved(h, v, sx, limit);
    if InHistory(c, v, sx) {
      EndIsThere(c, v, sx);
    }
    if 0 < |v| <= |c| {
      EndOfCollected(p + saved, v, sx, limit);
      if |v| <= |p| {
        EndsStill(p, v, saved, sx);
        assert |saved| == 0 ==> p + saved == p;
      } else {
        BehindVisible(h, v, saved, sx, limit);
      }
    }
  }

  lemma EndOfCollected(h: seq<Line>, v: seq<Line>, sx: nat, limit: nat)
    requires |v| <= |Collected(h, limit)|
    ensures InHistory(Collected(h, limit), v, sx) <==> InHistory(h, v, sx)
  {
    hide LineEqual, Collected;
    LastOfLast(h, |Collected(h, limit)|, |v|);
  }

  /** A history that is too short for the visible lines is the end of them. */
  lemma BehindVisible(h: seq<Line>, v: seq<Line>, saved: seq<Line>, sx: nat, limit: nat)
    requires |Preserved(h, v, sx, limit)| < |v| <= |Preserved(h, v, sx, limit) + saved|
    ensures InHistory(Preserved(h, v, sx, limit) + saved, v, sx) <==> StillEnds(v, saved, sx)
  {
    hide LineEqual, LinesEqual, StillEnds, Collected, Last;
    var p := Preserved(h, v, sx, limit);
    EndOfAppended(h, v, |p|);
    AppendedEnds([], v, sx);
    assert [] + v == v;
    EndsStill(v, v, saved, sx);
    SameBehind(p, v, saved);
  }

  lemma EndOfAppended<T>(s: seq<T>, t: seq<T>, n: nat)
    requires n <= |t|
    ensures Last(s + t, n) == Last(t, n)
  {
  }

  lemma SameBehind<T>(p: seq<T>, v: seq<T>, more: seq<T>)
    requires |p| < |v| <= |p + more| && p == Last(v, |p|)
    ensures Last(p + more, |v|) == Last(v + more, |v|)
  {
    assert v == v[..|v| - |p|] + p;
    assert v + more == v[..|v| - |p|] + (p + more);
    EndOfAppended(v[..|v| - |p|], p + more, |v|);
  }

  /** With a saved grid, and room for all lines, preserving twice is preserving once exactly if the history is
      settled. Otherwise the visible lines are added again, and so on every time. */
  lemma AllPreservedTwice(h: seq<Line>, v: seq<Line>, saved: seq<Line>, sx: nat, width: nat, limit: nat)
    requires |h| + 2 * (|v| + |saved|) < limit
    ensures var p := AllPreserved(h, v, Some(saved), sx, width, limit);
      var q := AllPreserved(p, v, Some(saved), sx, width, limit);
      var same := Settled(h, v, saved, sx, width, limit);
      (q == p <==> same) && (!same ==> p + v <= q)
  {
    hide LineEqual, InHistory, StillEnds;
    var p1 := Preserved(h, v, sx, limit);
    PreservedEnds(h, v, sx, limit);
    assert |saved| == 0 ==> p1 + saved == p1;
    if |saved| > 0 && !InHistory(p1, saved, width) {
      AppendedEnds(p1, saved, width);
      if |v| > 0 {
        EndsStill(p1, v, saved, sx);
      }
    }
  }

  /** After the visible lines have been preserved the history ends with them, if there is room. */
  lemma PreservedEnds(h: seq<Line>, v: seq<Line>, sx: nat, limit: nat)
    requires |h| + |v| < limit
    ensures InHistory(Preserved(h, v, sx, limit), v, sx)
  {
    hide LineEqual;
    AppendedEnds(h, v, sx);
  }

  lemma AppendedEnds(h: seq<Line>, v: seq<Line>, sx: nat)
    ensures InHistory(h + v, v, sx)
  {
    assert Last(h + v, |v|) == v;
    EndsWithItself(v, sx);
  }

  lemma EndsStill(h: seq<Line>, v: seq<Line>, saved: seq<Line>, sx: nat)
    requires InHistory(h, v, sx)
    ensures InHistory(h + saved, v, sx) <==> StillEnds(v, saved, sx)
  {
    hide LineEqual;
    var m := |saved|;
    if |v| <= m {
      assert Last(h + saved, |v|) == Last(saved, |v|);
    } else {
      var l := Last(h, |v|);
      assert Last(h + saved, |v|) == l[m..] + saved;
      EqualInFront(l[m..], v[m..], saved, v, sx);
    }
  }

  lemma EqualInFront(a: seq<Line>, b: seq<Line>, l: seq<Line>, v: seq<Line>, sx: nat)
    requires LinesEqual(a, b, sx)
    ensures LinesEqual(a + l, v, sx) <==> LinesEqual(b + l, v, sx)
  {
    hide LineEqual;
    forall k | 0 <= k < |a + l| && |a + l| == |v|
      ensures LineEqual((a + l)[k], v[k], sx) <==> LineEqual((b + l)[k], v[k], sx)
    {
      if k < |a| {
        EqualAlike(a[k], b[k], v[k], sx);
      }
    }
  }

  lemma EqualAlike(a: Line, b: Line, c: Line, sx: nat)
    requires LineEqual(a, b, sx)
    ensures LineEqual(a, c, sx) <==> LineEqual(b, c, sx)
  {
  }

  /** At the limit the result can be the same although lines are added. */
  lemma AddedUnnoticed(a: Line, b: Line, sx: nat)
    requires !LineEqual(a, b, sx) && !LineEqual(b, a, sx)
    ensures var h := [a, b, a, b];
      && AddsAny(h, [a], [b], sx, sx, 4) && !Settled(h, [a], [b], sx, sx, 4)
      && AllPreserved(h, [a], Some([b]), sx, sx, 4) == h
  {
    hide LineEqual, InHistory;
    var h := [a, b, a, b];
    EndsUnlike(h, [a], sx);
    var c := Collected(h + [a], 4);
    assert h + [a] == [a, b, a, b, a] && c == [b, a, b, a];
    EndsUnlike(c, [b], sx);
    EndsUnlike([b], [a], sx);
    assert c + [b] == [b, a, b, a, b];
  }

  /** For instance, with a saved grid that differs from the visible lines in its last line every time adds
      all lines again for as long as there is room. */
  lemma SavedGridIsAddedAgain(h: seq<Line>, v: seq<Line>, saved: seq<Line>, sx: nat, width: nat, limit: nat)
    requires |v| > 0 && |saved| > 0 && sx <= width && !LineEqual(v[|v| - 1], saved[|saved| - 1], sx)
    requires |h| + 2 * (|v| + |saved|) < limit && !InHistory(h, v, sx)
    ensures var p := AllPreserved(h, v, Some(saved), sx, width, limit);
      p == h + v + saved && AllPreserved(p, v, Some(saved), sx, width, limit) == p + v + saved
  {
    var p := h + v + saved;
    EndsUnlike(h + v, saved, width);
    EndsUnlike(p, v, sx);
    EndsUnlike(p + v, saved, width);
  }

  lemma EndsUnlike(h: seq<Line>, v: seq<Line>, sx: nat)
    requires |h| > 0 && |v| > 0 && !LineEqual(h[|h| - 1], v[|v| - 1], sx)
    ensures !InHistory(h, v, sx)
  {
    if |v| <= |h| {
      assert Last(h, |v|)[|v| - 1] == h[|h| - 1];
    }
  }

  /** A part of one sequence in the place of a part of another. */
  function Spliced<T>(to: seq<T>, at: nat, from: seq<T>, start: nat, count: nat): (r: seq<T>)
    requires at + count <= |to| && start + count <= |from|
    ensures |r| == |to|
  {
    to[..at] + from[start..start + count] + to[at + count..]
  }

  lemma SplicedOneMore<T>(to: seq<T>, at: nat, from: seq<T>, start: nat, count: nat)
    requires at + count < |to| && start + count < |from|
    ensures Spliced(to, at, from, start, count + 1)
      == Spliced(to, at, from, start, count)[at + count := from[start + count]]
    ensures forall k :: at + count <= k < |to| ==> Spliced(to, at, from, start, count)[k] == to[k]
  {
  }

  /** Copy lines from one array to another, or to the front of the same one. */
  method CopyLines(to: array<Line>, at: nat, from: array<Line>, start: nat, count: nat)
    requires at + count <= to.Length && start + count <= from.Length
    requires to == from ==> at == 0
    modifies to
    ensures to[..] == Spliced(old(to[..]), at, old(from[..]), start, count)
  {
    hide Spliced;
    ghost var was, source := to[..], from[..];
    var k := 0;
    assert Spliced(was, at, source, start, 0) == was by { NothingSpliced(was, at, source, start); }
    while k < count
      invariant 0 <= k <= count
      invariant to[..] == Spliced(was, at, source, start, k)
      invariant to != from ==> from[..] == source
    {
      SplicedOneMore(was, at, source, start, k);
      assert from[start + k] == from[..][start + k];
      to[at + k] := from[start + k];
      k := k + 1;
    }
  }

  lemma NothingSpliced<T>(to: seq<T>, at: nat, from: seq<T>, start: nat)
    requires at <= |to| && start <= |from|
    ensures Spliced(to, at, from, start, 0) == to
  {
  }

  /** Lines rebuilt with one more between the first ones and the others. */
  lemma Rebuilt<T>(lines: seq<T>, wider: seq<T>, first: nat, count: nat, from: seq<T>, y: nat)
    requires first + count <= |lines| && |wider| == first + count + 1 && y < |from|
    ensures var both := Spliced(Spliced(wider, 0, lines, 0, first), first + 1, lines, first, count);
      var r := Spliced(both, first, from, y, 1);
      r == lines[..first] + [from[y]] + lines[first..first + count]
  {
  }

  /** The two parts of some lines when the first ones have been dropped. */
  lemma DroppedParts<T>(was: seq<T>, now: seq<T>, n: nat, m: nat, count: nat)
    requires count <= n && n + m <= |was| && n + m - count <= |now| && now[..n + m - count] == was[count..n + m]
    ensures now[..n - count] == was[..n][count..] && now[n - count..n - count + m] == was[n..n + m]
  {
    var l := now[..n + m - count];
    assert now[..n - count] == l[..n - count] && now[n - count..n - count + m] == l[n - count..];
    assert was[..n][count..] == was[count..n + m][..n - count] && was[n..n + m] == was[count..n + m][n - count..];
  }

  class Grid {
    const sx: nat
    const sy: nat
    const limit: nat
    var scrolled: nat
    var hsize: nat
    var lines: array<Line>

    ghost predicate Valid()
      reads this
    {
      hsize + sy <= lines.Length
    }

    ghost function History(): seq<Line>
      requires Valid()
      reads this, lines
    {
      lines[..hsize]
    }

    ghost function Visible(): seq<Line>
      requires Valid()
      reads this, lines
    {
      lines[hsize..hsize + sy]
    }

    constructor (sx: nat, sy: nat, limit: nat)
      ensures Valid() && this.sx == sx && this.sy == sy && this.limit == limit && hsize == 0 && scrolled == 0
      ensures fresh(lines)
    {
      this.sx, this.sy, this.limit := sx, sy, limit;
      scrolled, hsize := 0, 0;
      lines := new Line[sy](_ => Line([], 0, 0, 0));
    }

    /** Copy lines from another grid. */
    method DuplicateLines(dy: nat, src: Grid, y: nat, count: nat)
      requires Valid() && src.Valid() && src != this && src.lines != lines
      requires dy + count <= hsize + sy && y + count <= src.hsize + src.sy
      modifies lines
      ensures lines[..] == Spliced(old(lines[..]), dy, src.lines[..], y, count)
    {
      CopyLines(lines, dy, src.lines, y, count);
    }

    /** Add a line of another grid at the end of the history. The lines are rebuilt. */
    method InsertHistoryLine(src: Grid, y: nat)
      requires Valid() && src.Valid() && src != this && src.lines != lines && y < src.hsize + src.sy
      modifies this
      ensures Valid() && fresh(lines) && hsize == old(hsize) + 1 && scrolled == old(scrolled)
      ensures History() == old(History()) + [src.lines[y]] && Visible() == old(Visible())
    {
      hide Spliced;
      var before, was := lines, hsize + sy;
      var wider := new Line[was + 1](_ => Line([], 0, 0, 0));
      Rebuilt(before[..], wider[..], hsize, sy, src.lines[..], y);
      CopyLines(wider, 0, before, 0, hsize);
      CopyLines(wider, hsize + 1, before, hsize, sy);
      lines := wider;
      hsize := hsize + 1;
      DuplicateLines(hsize - 1, src, y, 1);
      assert History() == lines[..][..hsize] && Visible() == lines[..][hsize..];
    }

    /** Add lines of another grid at the end of the history. */
    method InsertHistory(src: Grid, count: nat)
      requires Valid() && src.Valid() && src != this && src.lines != lines && count <= src.hsize + src.sy
      modifies this
      ensures Valid() && hsize == old(hsize) + count && scrolled == old(scrolled)
      ensures count == 0 || fresh(lines)
      ensures count == 0 ==> lines == old(lines)
      ensures History() == old(History()) + src.lines[..count] && Visible() == old(Visible())
    {
      var y := 0;
      while y < count
        invariant 0 <= y <= count && Valid() && hsize == old(hsize) + y && scrolled == old(scrolled)
        invariant if y == 0 then lines == old(lines) else fresh(lines)
        invariant History() == old(History()) + src.lines[..y] && Visible() == old(Visible())
      {
        InsertHistoryLine(src, y);
        y := y + 1;
      }
    }

    /** Drop the oldest lines of the history if it is at the limit. */
    method CollectHistory()
      requires Valid()
      modifies this, lines
      ensures Valid() && lines == old(lines)
      ensures History() == Collected(old(History()), limit) && Visible() == old(Visible())
    {
      if hsize == 0 || hsize < limit {
        return;
      }
      var count := hsize - limit;
      if count < 1 {
        count := 1;
      }
      if count > hsize {
        count := hsize;
      }
      DropHistory(count);
      assert Collected(old(History()), limit) == old(History())[count..];
    }

    method DropHistory(count: nat)
      requires Valid() && count <= hsize
      modifies this, lines
      ensures Valid() && lines == old(lines)
      ensures History() == old(History())[count..] && Visible() == old(Visible())
    {
      ghost var was := lines[..];
      TrimHistory(count);
      ghost var now := lines[..];
      DroppedParts(was, now, hsize, sy, count);
      hsize := hsize - count;
      if scrolled > hsize {
        scrolled := hsize;
      }
    }

    /** Move all lines over the first ones, and clear the lines that this leaves at the end. */
    method TrimHistory(count: nat)
      requires Valid() && count <= hsize
      modifies lines
      ensures lines[..hsize + sy - count] == old(lines[count..hsize + sy])
    {
      var remaining := hsize + sy - count;
      CopyLines(lines, 0, lines, count, remaining);
      assert lines[..remaining] == lines[..][..remaining];
      ghost var moved := lines[..remaining];
      var k := remaining;
      while k < hsize + sy
        invariant remaining <= k <= hsize + sy && lines[..remaining] == moved
      {
        lines[k] := Line([], 0, 0, 0);
        k := k + 1;
      }
    }

    method LineEquals(a: nat, other: Grid, b: nat) returns (equal: bool)
      requires Valid() && other.Valid() && a < hsize + sy && b < other.hsize + other.sy
      ensures equal <==> LineEqual(lines[a], other.lines[b], if other.sx > sx then other.sx else sx)
      ensures equal <==>
        && lines[a].cellUsed == other.lines[b].cellUsed && lines[a].flags == other.lines[b].flags
        && forall x: nat :: x < sx || x < other.sx ==> CellAt(lines[a], x) == CellAt(other.lines[b], x)
    {
      var l, m := lines[a], other.lines[b];
      if l.cellUsed != m.cellUsed || l.flags != m.flags {
        return false;
      }
      var width, x := if other.sx > sx then other.sx else sx, 0;
      while x < width
        invariant 0 <= x <= width && forall j: nat :: j < x ==> CellAt(l, j) == CellAt(m, j)
      {
        if CellAt(l, x) != CellAt(m, x) {
          return false;
        }
        x := x + 1;
      }
      return true;
    }

    /** Are the last lines of the history those of another grid from a position on? */
    method EndsWith(other: Grid, from: nat, count: nat) returns (ends: bool)
      requires Valid() && other.Valid() && from + count <= other.hsize + other.sy
      ensures ends <==> InHistory(History(), other.lines[from..from + count], if other.sx > sx then other.sx else sx)
    {
      hide LineEqual, InHistory;
      ghost var h, v, width := History(), other.lines[from..from + count], if other.sx > sx then other.sx else sx;
      InHistoryByLine(h, v, width);
      if hsize < count {
        return false;
      }
      var y := 0;
      ends := true;
      while y < count && ends
        invariant 0 <= y <= count
        invariant ends ==> forall j :: 0 <= j < y ==> LineEqual(h[hsize - count + j], v[j], width)
        invariant !ends ==> exists j :: 0 <= j < count && !LineEqual(h[hsize - count + j], v[j], width)
      {
        ends := LineEquals(hsize - count + y, other, from + y);
        assert h[hsize - count + y] == lines[hsize - count + y] && v[y] == other.lines[from + y];
        y := y + 1;
      }
    }
  }

  lemma InHistoryByLine(h: seq<Line>, v: seq<Line>, sx: nat)
    ensures InHistory(h, v, sx) <==>
      |v| <= |h| && forall j :: 0 <= j < |v| ==> LineEqual(h[|h| - |v| + j], v[j], sx)
  {
    hide LineEqual;
    var l := Last(h, |v|);
    assert |v| <= |h| ==> forall j :: 0 <= j < |v| ==> l[j] == h[|h| - |v| + j];
  }

  /** Equal lines have the same flags, the same number of used cells, and the same cells up to the width, where
      a cell that is not there is a default one. */
  lemma EqualLines(a: Line, b: Line, sx: nat)
    ensures LineEqual(a, b, sx) <==>
      && a.flags == b.flags && a.cellUsed == b.cellUsed
      && forall x: nat :: x < sx ==>
        && (x < |a.cells| && x < |b.cells| ==> a.cells[x] == b.cells[x])
        && (x < |a.cells| && x >= |b.cells| ==> a.cells[x] == 0)
        && (x >= |a.cells| && x < |b.cells| ==> b.cells[x] == 0)
  {
    assert forall x: nat :: x < sx ==>
      (CellAt(a, x) == CellAt(b, x) <==>
        && (x < |a.cells| && x < |b.cells| ==> a.cells[x] == b.cells[x])
        && (x < |a.cells| && x >= |b.cells| ==> a.cells[x] == 0)
        && (x >= |a.cells| && x < |b.cells| ==> b.cells[x] == 0));
  }

  class Screen {
    const grid: Grid
    var saved: Grid?

    constructor (grid: Grid)
      requires grid.Valid()
      ensures Valid() && this.grid == grid && saved == null
    {
      this.grid, saved := grid, null;
    }

    ghost predicate Valid()
      reads this, grid, saved
    {
      grid.Valid() && (saved != null ==> saved.Valid() && saved != grid && saved.lines != grid.lines)
    }

    /** Copy the visible lines to the history, unless it already ends with them. */
    method PreserveVisibleGrid()
      requires Valid()
      modifies grid, grid.lines
      ensures Valid() && (grid.lines == old(grid.lines) || fresh(grid.lines))
      ensures grid.Visible() == old(grid.Visible())
      ensures grid.History() == Preserved(old(grid.History()), old(grid.Visible()), grid.sx, grid.limit)
    {
      hide InHistory, Collected;
      if grid.sy == 0 {
        return;
      }
      var ends := grid.EndsWith(grid, grid.hsize, grid.sy);
      if ends {
        return;
      }
      var snapshot := new Grid(grid.sx, grid.sy, 0);
      snapshot.DuplicateLines(0, grid, grid.hsize, grid.sy);
      assert snapshot.lines[..grid.sy] == grid.Visible();
      grid.InsertHistory(snapshot, grid.sy);
      grid.CollectHistory();
    }

    /** Copy the lines of the saved grid to the history, unless it already ends with them. */
    method PreserveAlternateSavedGrid()
      requires Valid()
      modifies grid, grid.lines
      ensures Valid() && (grid.lines == old(grid.lines) || fresh(grid.lines))
      ensures grid.Visible() == old(grid.Visible())
      ensures grid.History() == if saved == null then old(grid.History())
        else SavedPreserved(old(grid.History()), saved.lines[..saved.sy], Width(), grid.limit)
    {
      if saved == null {
        return;
      }
      if saved.sy > 0 {
        var ends := grid.EndsWith(saved, 0, saved.sy);
        if ends {
          return;
        }
      }
      grid.InsertHistory(saved, saved.sy);
      grid.CollectHistory();
    }

    /** Preserve all lines of a pane. */
    method PreservePaneHistory()
      requires Valid()
      modifies grid, grid.lines
      ensures Valid() && (grid.lines == old(grid.lines) || fresh(grid.lines))
      ensures grid.Visible() == old(grid.Visible())
      ensures grid.History()
        == AllPreserved(old(grid.History()), old(grid.Visible()), SavedLines(), grid.sx, Width(), grid.limit)
    {
      hide InHistory, Collected;
      PreserveVisibleGrid();
      PreserveAlternateSavedGrid();
    }

    ghost function SavedLines(): Option<seq<Line>>
      requires Valid()
      reads this, grid, saved, if saved == null then {} else {saved.lines}
    {
      if saved == null then None else Some(saved.lines[..saved.sy])
    }

    /** The width by which lines of the saved grid are compared. */
    function Width(): nat
      reads this
    {
      if saved != null && saved.sx > grid.sx then saved.sx else grid.sx
    }
  }
}
