/** What the strings in targets stand for, literally. */
module CmdFindNames {
  import opened Common
  import opened CmdFind

  /** The best session: if unattached ones are preferred an attached one is best only if all are, and among
      those that are alike in that the latest activity wins, and the first of equals. */
  lemma BestMeans(list: seq<Session>, k: nat, prefer: bool)
    requires k < |list|
    ensures IsBest(list, k, prefer) <==>
      forall j :: 0 <= j < |list| ==>
        && (prefer && list[k].attached ==> list[j].attached)
        && (!prefer || list[j].attached == list[k].attached ==> list[j].activity <= list[k].activity)
        && (j < k && (!prefer || list[j].attached == list[k].attached) ==> list[j].activity < list[k].activity)
  {
    var b := list[k];
    assert forall j :: 0 <= j < |list| ==>
      (Better(list[j], b, prefer) <==>
        || (prefer && b.attached && !list[j].attached)
        || ((!prefer || list[j].attached == b.attached) && list[j].activity > b.activity));
    assert forall j :: 0 <= j < |list| ==>
      (Better(b, list[j], prefer) <==>
        || (prefer && list[j].attached && !b.attached)
        || ((!prefer || list[j].attached == b.attached) && b.activity > list[j].activity));
  }

  // ----- parts -----

  lemma CutAt(before: string, c: char, behind: string)
    requires c !in before
    ensures Cut(before + [c] + behind, c) == (before, Some(behind))
  {
    var s := before + [c] + behind;
    assert s[|before|] == c;
    var p := IndexOf(s, c);
    assert forall j :: 0 <= j < |before| ==> s[j] == before[j];
    assert p == |before|;
    assert s[..p] == before && s[p + 1..] == behind;
  }

  lemma NotCut(s: string, c: char)
    requires c !in s
    ensures Cut(s, c) == (s, None)
  {
  }

  /** The parts of a target with a colon: a session, a window, and behind a period a pane. */
  lemma SessionParts(session: string, window: string, pane: string, kind: Type)
    requires ':' !in session && '.' !in window
    ensures Split(session + ":" + window, kind) == Parts(Some(session), Some(window), None, true, false)
    ensures Split(session + ":" + window + "." + pane, kind)
      == Parts(Some(session), Some(window), Some(pane), true, true)
  {
    hide Cut;
    CutAt(session, ':', window);
    NotCut(window, '.');
    CutAt(session, ':', window + "." + pane);
    CutAt(window, '.', pane);
    assert session + ":" + window + "." + pane == session + ":" + (window + "." + pane);
  }

  /** The parts of a target with a period and no colon. */
  lemma WindowParts(window: string, pane: string, kind: Type)
    requires ':' !in window && ':' !in pane && '.' !in window
    ensures Split(window + "." + pane, kind) == Parts(None, Some(window), Some(pane), false, true)
  {
    hide Cut;
    NotCut(window + "." + pane, ':');
    CutAt(window, '.', pane);
  }

  /** A target without either is a session, a window or a pane by its first character, and else by what is
      looked for. */
  lemma BareParts(target: string, kind: Type)
    requires ':' !in target && '.' !in target
    ensures var p := Split(target, kind);
      && !p.windowOnly && !p.paneOnly
      && p.session == (if |target| > 0 && target[0] == '$' then Some(target)
        else if |target| > 0 && (target[0] == '@' || target[0] == '%') then None
        else if kind == SessionTarget then Some(target) else None)
      && p.window == (if |target| > 0 && target[0] == '@' then Some(target)
        else if |target| > 0 && (target[0] == '$' || target[0] == '%') then None
        else if kind == WindowTarget then Some(target) else None)
      && p.pane == (if |target| > 0 && target[0] == '%' then Some(target)
        else if |target| > 0 && (target[0] == '$' || target[0] == '@') then None
        else if kind == PaneTarget then Some(target) else None)
  {
    hide Cut;
    NotCut(target, ':');
    NotCut(target, '.');
  }

  /** A leading = asks for an exact match and is not part of the name; an empty part is no part. */
  lemma ExactParts(name: string, flags: Flags)
    requires name != "" && name[0] != '='
    ensures Strip(Some("=" + name)) == Strip(Some(name)) == Some(name) && Strip(Some("=")) == Strip(Some("")) == None
    ensures Exactly(Parts(Some("=" + name), None, None, false, false), flags) == flags.(exactSession := true)
    ensures Exactly(Parts(None, Some("=" + name), None, false, false), flags) == flags.(exactWindow := true)
    ensures Exactly(Parts(Some(name), Some(name), None, false, false), flags) == flags
  {
    assert ("=" + name)[1..] == name;
  }

  /** The targets that stand for something by themselves. */
  lemma SpecialTargets()
    ensures forall t :: IsActiveTarget(t) <==> t in ["@", "{active}", "{current}"]
    ensures forall t :: IsMouseTarget(t) <==> t in ["=", "{mouse}"]
    ensures forall t :: IsMarkedTarget(t) <==> t in ["~", "{marked}"]
  {
  }

  // ----- sessions -----

  /** A name that is the exact name of a session stands for it, whatever other names it begins. */
  lemma ExactSession(world: World, k: nat, exactOnly: bool)
    requires k < |world.sessions| && Head(world.sessions[k].name) != '$'
    requires forall j :: 0 <= j < k ==> world.sessions[j].name != world.sessions[k].name
    ensures NamedSession(world, world.sessions[k].name, exactOnly) == Some(world.sessions[k])
  {
    var names := SessionNames(world);
    FirstHit(world, Exact, names[k], names, 0, k);
  }

  /** Else it stands for the session of a client of that name, else for the only session whose name begins
      with it, unless the match has to be exact. */
  lemma OtherSession(world: World, name: string, k: nat)
    requires k < |world.sessions| && Head(name) != '$'
    requires forall j :: 0 <= j < |world.sessions| ==> world.sessions[j].name != name
    ensures world.clientSession(name).Some? ==> NamedSession(world, name, false) == world.clientSession(name)
    ensures world.clientSession(name).None? ==> NamedSession(world, name, true) == None
    ensures world.clientSession(name).None? && StartsWith(world.sessions[k].name, name) ==>
      NamedSession(world, name, false) ==
        if forall j :: 0 <= j < |world.sessions| && j != k ==> !StartsWith(world.sessions[j].name, name)
        then Some(world.sessions[k]) else None
  {
    hide StartsWith, Hits;
    var names := SessionNames(world);
    assert forall j :: 0 <= j < |names| ==> names[j] == world.sessions[j].name;
    NoHits(world, Exact, name, names, 0);
    if StartsWith(names[k], name) {
      OneHit(world, Prefix, name, names, k);
      if j :| 0 <= j < |world.sessions| && j != k && StartsWith(world.sessions[j].name, name) {
        assert Meets(world, Prefix, name, names[j]);
        TwoHits(world, Prefix, name, names, j, k);
      } else {
        assert forall j :: 0 <= j < |names| && j != k ==> !Meets(world, Prefix, name, names[j]);
      }
    }
  }

  // ----- hits -----

  lemma {:induction false} NoHits(world: World, how: How, wanted: string, names: seq<string>, from: nat)
    requires from <= |names| && forall j :: from <= j < |names| ==> !Meets(world, how, wanted, names[j])
    ensures Hits(world, how, wanted, names, from) == []
    decreases |names| - from
  {
    if from < |names| {
      NoHits(world, how, wanted, names, from + 1);
    }
  }

  lemma {:induction false} FirstHit(world: World, how: How, wanted: string, names: seq<string>, from: nat, k: nat)
    requires from <= k < |names| && Meets(world, how, wanted, names[k])
    requires forall j :: from <= j < k ==> !Meets(world, how, wanted, names[j])
    ensures Hits(world, how, wanted, names, from) == [k] + Hits(world, how, wanted, names, k + 1)
    decreases k - from
  {
    if from < k {
      FirstHit(world, how, wanted, names, from + 1, k);
    }
  }

  lemma OneHit(world: World, how: How, wanted: string, names: seq<string>, k: nat)
    requires k < |names| && Meets(world, how, wanted, names[k])
    ensures |Hits(world, how, wanted, names, 0)| > 0
    ensures (forall j :: 0 <= j < |names| && j != k ==> !Meets(world, how, wanted, names[j])) ==>
      Hits(world, how, wanted, names, 0) == [k]
  {
    hide Meets;
    AnyHit(world, how, wanted, names, 0, k);
    if forall j :: 0 <= j < |names| && j != k ==> !Meets(world, how, wanted, names[j]) {
      FirstHit(world, how, wanted, names, 0, k);
      NoHits(world, how, wanted, names, k + 1);
    }
  }

  lemma {:induction false} AnyHit(world: World, how: How, wanted: string, names: seq<string>, from: nat, k: nat)
    requires from <= k < |names| && Meets(world, how, wanted, names[k])
    ensures k in Hits(world, how, wanted, names, from)
    decreases k - from
  {
    if from < k {
      AnyHit(world, how, wanted, names, from + 1, k);
    }
  }

  lemma TwoHits(world: World, how: How, wanted: string, names: seq<string>, j: nat, k: nat)
    requires j < |names| && k < |names| && j != k
    requires Meets(world, how, wanted, names[j]) && Meets(world, how, wanted, names[k])
    ensures |Hits(world, how, wanted, names, 0)| > 1
  {
    hide Meets;
    AnyHit(world, how, wanted, names, 0, j);
    AnyHit(world, how, wanted, names, 0, k);
    var h := Hits(world, how, wanted, names, 0);
    var a :| 0 <= a < |h| && h[a] == j;
    var b :| 0 <= b < |h| && h[b] == k;
    assert a != b;
  }

  /** A name that one name is exactly stands for it, if it is the only one. Else, unless the match has to be
      exact, it stands for the only one that begins with it, and if none does for the only one that it
      matches. In every other case it stands for none. */
  lemma NameMeans(world: World, wanted: string, names: seq<string>, k: nat, exactOnly: bool)
    requires k < |names|
    ensures var how :=
        if exists j :: 0 <= j < |names| && names[j] == wanted then Exact
        else if exists j :: 0 <= j < |names| && StartsWith(names[j], wanted) then Prefix
        else Pattern;
      ByName(world, wanted, names, exactOnly) == Some(k) <==>
        && (exactOnly ==> how == Exact)
        && Meets(world, how, wanted, names[k])
        && forall j :: 0 <= j < |names| && j != k ==> !Meets(world, how, wanted, names[j])
  {
    hide StartsWith, Hits;
    HitsAre(world, Exact, wanted, names, k);
    HitsAre(world, Prefix, wanted, names, k);
    HitsAre(world, Pattern, wanted, names, k);
  }

  lemma HitsAre(world: World, how: How, wanted: string, names: seq<string>, k: nat)
    requires k < |names|
    ensures |Hits(world, how, wanted, names, 0)| > 0 <==>
      exists j :: 0 <= j < |names| && Meets(world, how, wanted, names[j])
    ensures Only(Hits(world, how, wanted, names, 0)) == Some(k) <==>
      && Meets(world, how, wanted, names[k])
      && forall j :: 0 <= j < |names| && j != k ==> !Meets(world, how, wanted, names[j])
  {
    hide Meets;
    HitsMeet(world, how, wanted, names, 0);
    if j :| 0 <= j < |names| && Meets(world, how, wanted, names[j]) {
      AnyHit(world, how, wanted, names, 0, j);
    } else {
      NoHits(world, how, wanted, names, 0);
    }
    if Meets(world, how, wanted, names[k]) {
      OneHit(world, how, wanted, names, k);
      if j :| 0 <= j < |names| && j != k && Meets(world, how, wanted, names[j]) {
        TwoHits(world, how, wanted, names, j, k);
      }
    }
  }

  lemma {:induction false} HitsMeet(world: World, how: How, wanted: string, names: seq<string>, from: nat)
    requires from <= |names|
    ensures forall j :: 0 <= j < |Hits(world, how, wanted, names, from)| ==>
      Meets(world, how, wanted, names[Hits(world, how, wanted, names, from)[j]])
    decreases |names| - from
  {
    hide Meets;
    if from < |names| {
      HitsMeet(world, how, wanted, names, from + 1);
    }
  }

  // ----- windows -----

  /** The names in braces of windows. */
  lemma WindowTable()
    ensures MapTable(WINDOW_TABLE, "{start}") == "^" && MapTable(WINDOW_TABLE, "{end}") == "$"
    ensures MapTable(WINDOW_TABLE, "{last}") == "!"
    ensures MapTable(WINDOW_TABLE, "{next}") == "+" && MapTable(WINDOW_TABLE, "{previous}") == "-"
  {
  }

  /** {start} and {end} are the first and the last window, {last} is the one that was current before, and
      {next} and {previous} are beside the current one, around the ends. */
  lemma NamedWindows(world: World, s: Session, p: nat)
    requires Distinct(s.links) && p < |s.links| && s.links[p] == s.curw
    ensures var n := |s.links|;
      && NamedLink(world, s, MapTable(WINDOW_TABLE, "{start}"), false) == Some(s.links[0])
      && NamedLink(world, s, MapTable(WINDOW_TABLE, "{end}"), false) == Some(s.links[n - 1])
      && NamedLink(world, s, MapTable(WINDOW_TABLE, "{last}"), false)
        == (if |s.last| > 0 then Some(s.last[0]) else None)
      && NamedLink(world, s, MapTable(WINDOW_TABLE, "{next}"), false) == Some(s.links[(p + 1) % n])
      && NamedLink(world, s, MapTable(WINDOW_TABLE, "{previous}"), false) == Some(s.links[(p - 1) % n])
  {
    hide MapTable, Steps, ByName, FirstAt, LinkTo;
    WindowTable();
    StepsCount(s.links, p, 1, true);
    StepsCount(s.links, p, 1, false);
  }

  /** An offset with a number counts that far. */
  lemma OffsetWindows(world: World, s: Session, p: nat, digits: string, n: nat)
    requires Distinct(s.links) && p < |s.links| && s.links[p] == s.curw
    requires digits != "" && world.number(digits) == Some(n) && 1 <= n <= INT_MAX
    ensures NamedLink(world, s, "+" + digits, false) == Some(s.links[(p + n) % |s.links|])
    ensures NamedLink(world, s, "-" + digits, false) == Some(s.links[(p - n) % |s.links|])
  {
    hide Steps, ByName, FirstAt, LinkTo;
    assert ("+" + digits)[1..] == digits && ("-" + digits)[1..] == digits;
    StepsCount(s.links, p, n, true);
    StepsCount(s.links, p, n, false);
  }

  /** An offset that is no number from 1 on goes nowhere. */
  lemma NoOffset(world: World, s: Session, digits: string)
    requires digits != "" && (world.number(digits).Some? ==> !(1 <= world.number(digits).value <= INT_MAX))
    ensures NamedLink(world, s, "+" + digits, false) == NamedLink(world, s, "-" + digits, false) == Some(s.curw)
  {
    hide ByName, FirstAt, LinkTo;
    assert ("+" + digits)[1..] == digits && ("-" + digits)[1..] == digits;
  }

  /** When an index is wanted an offset counts from the current index, within the range of indices, and a
      number is itself, with its link if it has one. */
  lemma WantedIndices(world: World, s: Session, digits: string, n: nat)
    requires digits != "" && world.number(digits) == Some(n) && 1 <= n <= INT_MAX
    ensures NamedIndex(world, s, "+" + digits, false)
      == if s.curw.idx + n <= INT_MAX then Some((Some(s.curw), s.curw.idx + n)) else None
    ensures NamedIndex(world, s, "-" + digits, false)
      == if n <= s.curw.idx then Some((Some(s.curw), s.curw.idx - n)) else None
    ensures Head(digits) != '@' && !IsOffset(digits) && !IsSpecial(digits) ==>
      var i := NamedIndex(world, s, digits, false);
      && i.Some? && i.value.1 == n
      && (i.value.0.None? <==> forall k :: 0 <= k < |s.links| ==> s.links[k].idx != n)
      && (i.value.0.Some? ==> i.value.0.value in s.links && i.value.0.value.idx == n)
  {
    hide ByName, LinkTo, Steps;
    assert ("+" + digits)[1..] == digits && ("-" + digits)[1..] == digits;
  }

  /** A number is the index of a link, if there is such a link. */
  lemma IndexedWindow(world: World, s: Session, digits: string, k: nat, exact: bool)
    requires k < |s.links| && forall j :: 0 <= j < k ==> s.links[j].idx != s.links[k].idx
    requires world.number(digits) == Some(s.links[k].idx) && 0 <= s.links[k].idx <= INT_MAX
    requires Head(digits) != '@' && !IsOffset(digits) && !IsSpecial(digits)
    ensures NamedLink(world, s, digits, exact) == Some(s.links[k])
  {
    hide ByName;
    FirstAtIs(s.links, 0, k);
  }

  lemma {:induction false} FirstAtIs(links: seq<Winlink>, from: nat, k: nat)
    requires from <= k < |links| && forall j :: from <= j < k ==> links[j].idx != links[k].idx
    ensures FirstAt(links, links[k].idx, from) == k
    decreases k - from
  {
    if from < k {
      FirstAtIs(links, from + 1, k);
    }
  }

  /** An id is the current link if that is to the window, else the first one to it. */
  lemma WindowOfId(world: World, s: Session, digits: string, id: nat, exact: bool)
    requires world.number(digits) == Some(id) && id in world.windows
    ensures var l := NamedLink(world, s, "@" + digits, exact);
      && (l.None? <==> s.curw.window != id && forall k :: 0 <= k < |s.links| ==> s.links[k].window != id)
      && (s.curw.window == id ==> l == Some(s.curw))
      && (l.Some? ==> l.value.window == id)
      && (l.Some? && s.curw.window != id ==>
        exists k :: 0 <= k < |s.links| && s.links[k] == l.value && forall j :: 0 <= j < k ==> s.links[j].window != id)
  {
    hide Steps, ByName, FirstAt;
    assert ("@" + digits)[1..] == digits;
  }

  // ----- panes -----

  lemma {:induction false} InTable(table: seq<(string, string)>, k: nat)
    requires k < |table| && forall j :: 0 <= j < k ==> table[j].0 != table[k].0
    ensures MapTable(table, table[k].0) == table[k].1
  {
    if k > 0 {
      InTable(table[1..], k - 1);
    }
  }

  lemma {:induction false} NotInTable(table: seq<(string, string)>, s: string)
    requires forall j :: 0 <= j < |table| ==> table[j].0 != s
    ensures MapTable(table, s) == s
  {
    if |table| > 0 {
      NotInTable(table[1..], s);
    }
  }

  /** The names in braces of panes; the names of sides stand for themselves. */
  lemma PaneTable()
    ensures MapTable(PANE_TABLE, "{last}") == "!"
    ensures MapTable(PANE_TABLE, "{next}") == "+" && MapTable(PANE_TABLE, "{previous}") == "-"
    ensures MapTable(PANE_TABLE, "{top}") == "top" && MapTable(PANE_TABLE, "{bottom}") == "bottom"
    ensures MapTable(PANE_TABLE, "{left}") == "left" && MapTable(PANE_TABLE, "{right}") == "right"
    ensures MapTable(PANE_TABLE, "{top-left}") == "top-left" && MapTable(PANE_TABLE, "{top-right}") == "top-right"
    ensures MapTable(PANE_TABLE, "{bottom-left}") == "bottom-left"
    ensures MapTable(PANE_TABLE, "{bottom-right}") == "bottom-right"
    ensures MapTable(PANE_TABLE, "{up-of}") == "{up-of}" && MapTable(PANE_TABLE, "{down-of}") == "{down-of}"
    ensures MapTable(PANE_TABLE, "{left-of}") == "{left-of}" && MapTable(PANE_TABLE, "{right-of}") == "{right-of}"
  {
    hide MapTable;
    PaneNames();
    InTable(PANE_TABLE, 0);
    InTable(PANE_TABLE, 1);
    InTable(PANE_TABLE, 2);
    InTable(PANE_TABLE, 3);
    InTable(PANE_TABLE, 4);
    InTable(PANE_TABLE, 5);
    InTable(PANE_TABLE, 6);
    InTable(PANE_TABLE, 7);
    InTable(PANE_TABLE, 8);
    InTable(PANE_TABLE, 9);
    InTable(PANE_TABLE, 10);
    SideNames();
    NotInTable(PANE_TABLE, "{up-of}");
    NotInTable(PANE_TABLE, "{down-of}");
    NotInTable(PANE_TABLE, "{left-of}");
    NotInTable(PANE_TABLE, "{right-of}");
  }

  lemma PaneNames()
    ensures forall j, k :: 0 <= j < k < |PANE_TABLE| ==> PANE_TABLE[j].0 != PANE_TABLE[k].0
  {
  }

  lemma SideNames()
    ensures forall j :: 0 <= j < |PANE_TABLE| ==>
      PANE_TABLE[j].0 !in {"{up-of}", "{down-of}", "{left-of}", "{right-of}"}
  {
  }

  /** {last} is the pane that was active before, {next} and {previous} are beside the active one in the list,
      around its ends, and the others beside it in the layout. */
  lemma NamedPanes(world: World, w: Window, p: nat)
    requires Distinct(w.panes) && p < |w.panes| && w.panes[p] == w.active
    ensures var n := |w.panes|;
      && NamedPane(world, w, MapTable(PANE_TABLE, "{last}")) == (if |w.last| > 0 then Some(w.last[0]) else None)
      && NamedPane(world, w, MapTable(PANE_TABLE, "{next}")) == Some(w.panes[(p + 1) % n])
      && NamedPane(world, w, MapTable(PANE_TABLE, "{previous}")) == Some(w.panes[(p - 1) % n])
      && NamedPane(world, w, MapTable(PANE_TABLE, "{up-of}")) == world.beside(UpOf, w.active)
      && NamedPane(world, w, MapTable(PANE_TABLE, "{down-of}")) == world.beside(DownOf, w.active)
      && NamedPane(world, w, MapTable(PANE_TABLE, "{left-of}")) == world.beside(LeftOf, w.active)
      && NamedPane(world, w, MapTable(PANE_TABLE, "{right-of}")) == world.beside(RightOf, w.active)
  {
    hide MapTable, Steps;
    PaneTable();
    StepsCount(w.panes, p, 1, true);
    StepsCount(w.panes, p, 1, false);
  }

  /** A number counts the panes of the window from its base. */
  lemma IndexedPane(world: World, w: Window, digits: string, k: nat)
    requires k < |w.panes| && world.number(digits) == Some(w.base + k) && 0 <= w.base + k <= INT_MAX
    requires Head(digits) != '%' && !IsOffset(digits) && digits != "!" && SideOf(digits).None?
    ensures NamedPane(world, w, digits) == Some(w.panes[k])
  {
  }

  /** An id is a pane only if it is in the window. */
  lemma PaneOfId(world: World, w: Window, digits: string, id: nat)
    requires world.number(digits) == Some(id)
    ensures NamedPane(world, w, "%" + digits)
      == if id in world.panes && world.panes[id] == w.id then Some(id) else None
  {
    assert ("%" + digits)[1..] == digits;
  }
}
