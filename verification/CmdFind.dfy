/** Resolving a target string to a session, a window and a pane: the state of the search is filled in
    step by step, in a world of sessions, windows and panes that does not change meanwhile. */
module CmdFind {
  import opened Common

  datatype Winlink = Winlink(session: nat, idx: int, window: nat)

  /** The links are in the order of their indices; last are the previously current ones. A window's panes
      are numbered from base. */
  datatype Session = Session(
    id: nat, name: string, links: seq<Winlink>, curw: Winlink, last: seq<Winlink>, attached: bool, activity: int)

  datatype Window = Window(id: nat, name: string, panes: seq<nat>, base: int, active: nat, last: seq<nat>)

  /** What a search finds. */
  datatype State = State(s: Option<Session>, wl: Option<Winlink>, idx: int, w: Option<Window>, wp: Option<nat>)

  datatype Mouse = Mouse(valid: bool, s: Option<nat>, w: Option<nat>, wp: Option<nat>)

  /** A client: its session, its own active pane in the current window of that session, and the pane that
      it runs in. */
  datatype Client = Client(session: Option<Session>, pane: Option<nat>, inside: Option<nat>)

  datatype Direction = UpOf | DownOf | LeftOf | RightOf

  /** The sessions in the order of their names, all windows, the windows of all panes, and the marked
      pane. Also what the search asks of other code: numbers and ids in strings, pattern matching, the
      panes beside others or at a place in a window, and the session of a client. */
  datatype World = World(
    sessions: seq<Session>, windows: map<nat, Window>, panes: map<nat, nat>, marked: State,
    number: string -> Option<int>, matches: (string, string) -> bool,
    beside: (Direction, nat) -> Option<nat>, described: (nat, string) -> Option<nat>,
    clientSession: string -> Option<Session>)

  datatype Flags = Flags(
    preferUnattached: bool, quiet: bool, windowIndex: bool, defaultMarked: bool,
    exactSession: bool, exactWindow: bool, canFail: bool)

  datatype Type = PaneTarget | WindowTarget | SessionTarget

  // ----- what a world promises -----

  ghost predicate LinkOk(world: World, s: Session, wl: Winlink) {
    wl in s.links && wl.session == s.id && wl.window in world.windows
  }

  ghost predicate SessionOk(world: World, s: Session) {
    && LinkOk(world, s, s.curw)
    && (forall k :: 0 <= k < |s.links| ==> LinkOk(world, s, s.links[k]))
    && (forall k :: 0 <= k < |s.last| ==> LinkOk(world, s, s.last[k]))
  }

  ghost predicate WindowOk(world: World, w: Window) {
    && w.active in w.panes && (forall k :: 0 <= k < |w.last| ==> w.last[k] in w.panes)
    && (forall d, p :: p in w.panes && world.beside(d, p).Some? ==> world.beside(d, p).value in w.panes)
    && (forall d :: world.described(w.id, d).Some? ==> world.described(w.id, d).value in w.panes)
  }

  ghost predicate WorldOk(world: World) {
    && (forall k :: 0 <= k < |world.sessions| ==> SessionOk(world, world.sessions[k]))
    && (forall i :: i in world.windows ==> world.windows[i].id == i && WindowOk(world, world.windows[i]))
    && (forall p :: p in world.panes ==> world.panes[p] in world.windows && p in world.windows[world.panes[p]].panes)
    && (forall n :: world.clientSession(n).Some? ==> world.clientSession(n).value in world.sessions)
  }

  ghost predicate ClientOk(world: World, c: Client) {
    c.session.Some? ==>
      && c.session.value in world.sessions
      && (c.pane.Some? ==>
        && c.session.value.curw.window in world.windows
        && c.pane.value in world.windows[c.session.value.curw.window].panes)
  }

  // ----- valid states -----

  /** The session is there, the link is one of its links, the window is the link's, and the pane is in it. */
  predicate ValidState(world: World, st: State) {
    && st.s.Some? && st.wl.Some? && st.w.Some? && st.wp.Some?
    && st.s.value in world.sessions && st.wl.value in st.s.value.links
    && st.wl.value.window in world.windows && world.windows[st.wl.value.window] == st.w.value
    && st.wp.value in st.w.value.panes
  }

  /** The session, the link and the window are right. */
  ghost predicate Linked(world: World, st: State) {
    && st.s.Some? && st.wl.Some? && st.w.Some?
    && st.s.value in world.sessions && st.wl.value in st.s.value.links
    && st.wl.value.window in world.windows && world.windows[st.wl.value.window] == st.w.value
  }

  // ----- choosing among sessions -----

  predicate Better(s: Session, than: Session, prefer: bool) {
    if prefer && than.attached && !s.attached then true
    else if prefer && !than.attached && s.attached then false
    else s.activity > than.activity
  }

  /** The first of the best. */
  ghost predicate IsBest(list: seq<Session>, k: nat, prefer: bool) {
    && k < |list|
    && (forall j :: 0 <= j < |list| ==> !Better(list[j], list[k], prefer))
    && (forall j :: 0 <= j < k ==> Better(list[k], list[j], prefer))
  }

  method BestSession(list: seq<Session>, prefer: bool) returns (best: Option<Session>)
    ensures best.None? <==> |list| == 0
    ensures best.Some? ==> exists k: nat :: IsBest(list, k, prefer) && list[k] == best.value
  {
    best := None;
    var i := 0;
    ghost var k := 0;
    while i < |list|
      invariant 0 <= i <= |list| && (best.None? <==> i == 0)
      invariant best.Some? ==> IsBest(list[..i], k, prefer) && list[k] == best.value
    {
      if best.None? || Better(list[i], best.value, prefer) {
        best := Some(list[i]);
        k := i;
      }
      i := i + 1;
    }
    assert list[..i] == list;
  }

  // ----- what names stand for -----

  function StartsWith(s: string, prefix: string): bool {
    |prefix| <= |s| && s[..|prefix|] == prefix
  }

  function Head(s: string): char {
    if |s| == 0 then NUL else s[0]
  }

  datatype How = Exact | Prefix | Pattern

  predicate Meets(world: World, how: How, wanted: string, name: string) {
    match how
    case Exact => name == wanted
    case Prefix => StartsWith(name, wanted)
    case Pattern => world.matches(wanted, name)
  }

  /** The positions, from k on, of the names that meet what is wanted. */
  function Hits(world: World, how: How, wanted: string, names: seq<string>, k: nat): (h: seq<nat>)
    requires k <= |names|
    ensures forall j :: 0 <= j < |h| ==> k <= h[j] < |names|
    decreases |names| - k
  {
    if k == |names| then []
    else (if Meets(world, how, wanted, names[k]) then [k] else []) + Hits(world, how, wanted, names, k + 1)
  }

  function Only(h: seq<nat>): Option<nat> {
    if |h| == 1 then Some(h[0]) else None
  }

  /** Exact names are tried first, then if that is allowed prefixes, then patterns; the first of these
      that any name meets must be met by only one. */
  function ByName(world: World, wanted: string, names: seq<string>, exactOnly: bool): (p: Option<nat>)
    ensures p.Some? ==> p.value < |names|
  {
    var e := Hits(world, Exact, wanted, names, 0);
    var f := Hits(world, Prefix, wanted, names, 0);
    var g := Hits(world, Pattern, wanted, names, 0);
    if |e| > 0 || exactOnly then Only(e)
    else if |f| > 0 then Only(f)
    else Only(g)
  }

  /** Look for the only name that meets what is wanted. */
  method FindOnly(world: World, how: How, wanted: string, names: seq<string>)
    returns (found: Option<nat>, several: bool)
    ensures found == Only(Hits(world, how, wanted, names, 0))
    ensures several <==> |Hits(world, how, wanted, names, 0)| > 1
  {
    hide Meets;
    found, several := None, false;
    var k := 0;
    ghost var all := Hits(world, how, wanted, names, 0);
    while k < |names|
      invariant 0 <= k <= |names|
      invariant found.None? ==> all == Hits(world, how, wanted, names, k)
      invariant found.Some? ==> all == [found.value] + Hits(world, how, wanted, names, k)
    {
      if Meets(world, how, wanted, names[k]) {
        if found.Some? {
          return None, true;
        }
        found := Some(k);
      }
      k := k + 1;
    }
  }

  function SessionNames(world: World): (names: seq<string>)
    ensures |names| == |world.sessions|
  {
    seq(|world.sessions|, k requires 0 <= k < |world.sessions| => world.sessions[k].name)
  }

  function LinkNames(world: World, s: Session): (names: seq<string>)
    ensures |names| == |s.links|
  {
    seq(|s.links|, k requires 0 <= k < |s.links| =>
      if s.links[k].window in world.windows then world.windows[s.links[k].window].name else "")
  }

  function FirstWithId(sessions: seq<Session>, id: Option<int>, k: nat): (p: nat)
    requires k <= |sessions|
    ensures k <= p <= |sessions|
    ensures p < |sessions| ==> id == Some(sessions[p].id)
    ensures forall j :: k <= j < p ==> id != Some(sessions[j].id)
    decreases |sessions| - k
  {
    if k == |sessions| || id == Some(sessions[k].id) then k else FirstWithId(sessions, id, k + 1)
  }

  /** The session that a string names: by its id, its exact name, a client of it, or if that is allowed
      the only one of which it is a prefix, else the only one whose name it matches. */
  function NamedSession(world: World, name: string, exactOnly: bool): Option<Session> {
    if Head(name) == '$' then
      var p := FirstWithId(world.sessions, world.number(name[1..]), 0);
      if p < |world.sessions| then Some(world.sessions[p]) else None
    else
      var e := Hits(world, Exact, name, SessionNames(world), 0);
      if |e| > 0 then Some(world.sessions[e[0]])
      else if world.clientSession(name).Some? then world.clientSession(name)
      else
        var p := ByName(world, name, SessionNames(world), exactOnly);
        if p.Some? then Some(world.sessions[p.value]) else None
  }

  /** The position of the first link to a window. */
  function FirstTo(links: seq<Winlink>, id: nat, k: nat): (p: nat)
    requires k <= |links|
    ensures k <= p <= |links| && (p < |links| ==> links[p].window == id)
    ensures forall j :: k <= j < p ==> links[j].window != id
    decreases |links| - k
  {
    if k == |links| || links[k].window == id then k else FirstTo(links, id, k + 1)
  }

  predicate HasWindow(s: Session, id: nat) {
    FirstTo(s.links, id, 0) < |s.links|
  }

  /** The link a session has to a window: its current one if that is to the window, else its first. */
  function LinkTo(s: Session, id: nat): Option<Winlink> {
    if s.curw.window == id then Some(s.curw)
    else if HasWindow(s, id) then Some(s.links[FirstTo(s.links, id, 0)])
    else None
  }

  function SessionsWith(sessions: seq<Session>, id: nat): (l: seq<Session>)
    ensures forall s :: s in l <==> s in sessions && HasWindow(s, id)
  {
    if |sessions| == 0 then []
    else
      var n := |sessions| - 1;
      SessionsWith(sessions[..n], id) + if HasWindow(sessions[n], id) then [sessions[n]] else []
  }

  ghost predicate IsWindow(world: World, w: Option<Window>) {
    w.Some? && w.value.id in world.windows && world.windows[w.value.id] == w.value
  }

  // ----- what the parts of a target stand for in a session and in a window -----

  /** A number in a range, as the strings of offsets and indices give it. */
  function InRange(n: Option<int>, low: int): Option<int> {
    if n.Some? && low <= n.value <= INT_MAX then n else None
  }

  /** How far an offset such as +2 goes: one if there is no number, and nowhere if it is none. */
  function Offset(world: World, s: string): (n: nat)
    requires |s| > 0
  {
    if |s| == 1 then 1
    else var n := InRange(world.number(s[1..]), 1); if n.Some? then n.value else 0
  }

  /** One step forward or back in a list, around its ends. */
  function Beside<T(==)>(l: seq<T>, x: T, forward: bool): (y: T)
    ensures x in l ==> y in l
  {
    var p := IndexOf(l, x);
    if p == |l| then x
    else if forward then if p + 1 < |l| then l[p + 1] else l[0]
    else if p > 0 then l[p - 1] else l[|l| - 1]
  }

  function Steps<T(==)>(l: seq<T>, x: T, n: nat, forward: bool): (y: T)
    ensures x in l ==> y in l
  {
    if n == 0 then x else Steps(l, Beside(l, x, forward), n - 1, forward)
  }

  /** The position n behind p in a list of m, or before it if n is negative, around its ends. */
  function Around(p: nat, n: int, m: nat): (q: nat)
    requires p < m
    ensures q < m
  {
    (p + n) % m
  }

  /** The position that is one step from p. */
  function Next(p: nat, m: nat, forward: bool): (q: nat)
    requires p < m
    ensures q < m
  {
    if forward then if p + 1 < m then p + 1 else 0
    else if p > 0 then p - 1 else m - 1
  }

  lemma AroundFacts(p: nat, n: nat, m: nat, forward: bool)
    requires p < m
    ensures Around(p, 0, m) == p
    ensures n > 0 ==> if forward then Around(Next(p, m, true), n - 1, m) == Around(p, n, m)
      else Around(Next(p, m, false), 1 - n, m) == Around(p, 0 - n, m)
  {
    Quotient(p, m, 0, p);
    if n > 0 && forward && p + 1 == m {
      Quotient(p + n, m, (n - 1) / m + 1, (n - 1) % m);
    } else if n > 0 && !forward && p == 0 {
      Quotient(0 - n, m, (m - n) / m - 1, (m - n) % m);
    }
  }

  /** Offsets count around the list, in either direction. */
  lemma {:induction false} StepsCount<T>(l: seq<T>, p: nat, n: nat, forward: bool)
    requires Distinct(l) && p < |l|
    ensures Steps(l, l[p], n, forward) == l[Around(p, if forward then n else 0 - n, |l|)]
    decreases n
  {
    hide Around;
    AroundFacts(p, n, |l|, forward);
    if n > 0 {
      var q := Next(p, |l|, forward);
      assert Beside(l, l[p], forward) == l[q] by { IndexIs(l, p); }
      hide Beside, IndexOf, Distinct;
      StepsCount(l, q, n - 1, forward);
    }
  }

  function FirstAt(links: seq<Winlink>, idx: int, k: nat): (p: nat)
    requires k <= |links|
    ensures k <= p <= |links| && (p < |links| ==> links[p].idx == idx)
    ensures forall j :: k <= j < p ==> links[j].idx != idx
    decreases |links| - k
  {
    if k == |links| || links[k].idx == idx then k else FirstAt(links, idx, k + 1)
  }

  predicate IsOffset(s: string) {
    Head(s) == '+' || Head(s) == '-'
  }

  /** The link that a string names in a session: by a window id, an offset from the current one, a
      special character, an index, or a window's name. */
  function NamedLink(world: World, s: Session, window: string, exact: bool): Option<Winlink> {
    if Head(window) == '@' then
      var id := world.number(window[1..]);
      if id.Some? && id.value >= 0 && id.value in world.windows then LinkTo(s, id.value) else None
    else if !exact && IsOffset(window) then Some(Steps(s.links, s.curw, Offset(world, window), Head(window) == '+'))
    else if !exact && window == "!" then if |s.last| > 0 then Some(s.last[0]) else None
    else if !exact && window == "^" then if |s.links| > 0 then Some(s.links[0]) else None
    else if !exact && window == "$" then if |s.links| > 0 then Some(s.links[|s.links| - 1]) else None
    else
      var n := if IsOffset(window) then None else InRange(world.number(window), 0);
      var p := if n.Some? then FirstAt(s.links, n.value, 0) else |s.links|;
      if p < |s.links| then Some(s.links[p])
      else
        var q := ByName(world, window, LinkNames(world, s), exact);
        if q.Some? then Some(s.links[q.value]) else None
  }

  predicate IsSpecial(s: string) {
    s == "!" || s == "^" || s == "$"
  }

  /** The link and the index that a string names in a session when an index is wanted: an offset counts
      indices and not links, and a number needs no link. */
  function NamedIndex(world: World, s: Session, window: string, exact: bool): Option<(Option<Winlink>, int)> {
    if !exact && IsOffset(window) then
      var n := Offset(world, window);
      var i := if Head(window) == '+' then s.curw.idx + n else s.curw.idx - n;
      if (if Head(window) == '+' then i <= INT_MAX else 0 <= i) then Some((Some(s.curw), i)) else None
    else
      var named := Head(window) == '@' || IsOffset(window) || (!exact && IsSpecial(window));
      var n := if named then None else InRange(world.number(window), 0);
      var l := NamedLink(world, s, window, exact);
      if n.Some? && FirstAt(s.links, n.value, 0) == |s.links| then Some((None, n.value))
      else if l.Some? then Some((l, l.value.idx))
      else None
  }

  function SideOf(pane: string): Option<Direction> {
    if pane == "{up-of}" then Some(UpOf)
    else if pane == "{down-of}" then Some(DownOf)
    else if pane == "{left-of}" then Some(LeftOf)
    else if pane == "{right-of}" then Some(RightOf)
    else None
  }

  /** The pane that a string names in a window: by its id, as the last one, by its place beside the
      active one, an offset from that, an index, or a description of a place in the window. */
  function NamedPane(world: World, w: Window, pane: string): Option<nat> {
    if Head(pane) == '%' then
      var id := world.number(pane[1..]);
      if id.Some? && id.value >= 0 && id.value in world.panes && world.panes[id.value] == w.id then Some(id.value)
      else None
    else if pane == "!" then if |w.last| > 0 then Some(w.last[0]) else None
    else if SideOf(pane).Some? then world.beside(SideOf(pane).value, w.active)
    else if IsOffset(pane) then Some(Steps(w.panes, w.active, Offset(world, pane), Head(pane) == '+'))
    else
      var n := InRange(world.number(pane), 0);
      if n.Some? && w.base <= n.value < w.base + |w.panes| then Some(w.panes[n.value - w.base])
      else world.described(w.id, pane)
  }

  lemma NamedLinkIsThere(world: World, s: Session, window: string, exact: bool)
    requires WorldOk(world) && s in world.sessions && NamedLink(world, s, window, exact).Some?
    ensures LinkOk(world, s, NamedLink(world, s, window, exact).value)
  {
    assert SessionOk(world, s);
    var l := NamedLink(world, s, window, exact).value;
    if l in s.links {
      var k :| 0 <= k < |s.links| && s.links[k] == l;
    }
  }

  lemma NamedPaneIsThere(world: World, w: Window, pane: string)
    requires WorldOk(world) && IsWindow(world, Some(w)) && NamedPane(world, w, pane).Some?
    ensures NamedPane(world, w, pane).value in w.panes
  {
    assert WindowOk(world, w);
  }

  // ----- the parts of a target -----

  /** A string up to a separator, and what is behind it if it is there. */
  function Cut(s: string, c: char): (parts: (string, Option<string>)) {
    var p := IndexOf(s, c);
    if p < |s| then (s[..p], Some(s[p + 1..])) else (s, None)
  }

  /** Session, window and pane; the flags say that the window or the pane can be nothing else. */
  datatype Parts = Parts(
    session: Option<string>, window: Option<string>, pane: Option<string>, windowOnly: bool, paneOnly: bool)

  /** A target in parts: session:window.pane, and without separators by its first character or the type. */
  function Split(target: string, kind: Type): Parts {
    var (before, behind) := Cut(target, ':');
    if behind.Some? then
      var (window, pane) := Cut(behind.value, '.');
      Parts(Some(before), Some(window), pane, true, pane.Some?)
    else
      var (window, pane) := Cut(target, '.');
      if pane.Some? then Parts(None, Some(window), pane, false, true)
      else if Head(target) == '$' then Parts(Some(target), None, None, false, false)
      else if Head(target) == '@' then Parts(None, Some(target), None, false, false)
      else if Head(target) == '%' then Parts(None, None, Some(target), false, false)
      else match kind
        case SessionTarget => Parts(Some(target), None, None, false, false)
        case WindowTarget => Parts(None, Some(target), None, false, false)
        case PaneTarget => Parts(None, None, Some(target), false, false)
  }

  /** A leading = asks for an exact match. */
  function IsExact(s: Option<string>): bool {
    s.Some? && Head(s.value) == '='
  }

  function Exactly(parts: Parts, flags: Flags): Flags {
    flags.(
      exactSession := flags.exactSession || IsExact(parts.session),
      exactWindow := flags.exactWindow || IsExact(parts.window))
  }

  /** A part without the leading =, or nothing if that leaves nothing. */
  function Strip(s: Option<string>): Option<string> {
    if s.None? then None
    else
      var t := if IsExact(s) then s.value[1..] else s.value;
      if t == "" then None else Some(t)
  }

  function NonEmpty(s: Option<string>): Option<string> {
    if s == Some("") then None else s
  }

  function MapTable(table: seq<(string, string)>, s: string): string {
    if |table| == 0 then s else if table[0].0 == s then table[0].1 else MapTable(table[1..], s)
  }

  const WINDOW_TABLE: seq<(string, string)> :=
    [("{start}", "^"), ("{last}", "!"), ("{end}", "$"), ("{next}", "+"), ("{previous}", "-")]

  /** The side names stand for themselves. */
  const PANE_TABLE: seq<(string, string)> :=
    [("{last}", "!"), ("{next}", "+"), ("{previous}", "-"), ("{top}", "top"), ("{bottom}", "bottom"),
     ("{left}", "left"), ("{right}", "right"), ("{top-left}", "top-left"), ("{top-right}", "top-right"),
     ("{bottom-left}", "bottom-left"), ("{bottom-right}", "bottom-right")]

  function Mapped(table: seq<(string, string)>, s: Option<string>): Option<string> {
    if s.Some? then Some(MapTable(table, s.value)) else None
  }

  predicate IsMouseTarget(target: string) {
    target == "=" || target == "{mouse}"
  }

  predicate IsMarkedTarget(target: string) {
    target == "~" || target == "{marked}"
  }

  /** A target that names the current window of the client. */
  predicate IsActiveTarget(target: string) {
    target == "@" || target == "{active}" || target == "{current}"
  }

  // ----- what can be found -----

  /** A number is the id of a window, and a session has it. */
  predicate IsWindowId(world: World, n: Option<int>) {
    n.Some? && n.value >= 0 && n.value in world.windows && |SessionsWith(world.sessions, n.value)| > 0
  }

  /** The window that a name stands for without a session: that of an id, else the one that it names in the
      current session, else the current one of the session that it names. */
  function NamedWindow(world: World, cur: State, flags: Flags, window: string, only: bool): Option<nat> {
    if Head(window) == '@' then
      if IsWindowId(world, world.number(window[1..])) then Some(world.number(window[1..]).value) else None
    else if cur.s.Some? && NamedLink(world, cur.s.value, window, flags.exactWindow).Some? then
      Some(NamedLink(world, cur.s.value, window, flags.exactWindow).value.window)
    else if !only && NamedSession(world, window, flags.exactSession).Some? then
      Some(NamedSession(world, window, flags.exactSession).value.curw.window)
    else None
  }

  /** Does a name without a session stand for an index? A session does for none, but that is no failure. */
  predicate IsIndexNamed(world: World, cur: State, flags: Flags, window: string, only: bool) {
    if Head(window) == '@' then IsWindowId(world, world.number(window[1..]))
    else
      || (cur.s.Some? && NamedIndex(world, cur.s.value, window, flags.exactWindow).Some?)
      || (!only && NamedSession(world, window, flags.exactSession).Some?)
  }

  /** Is a pane named in a window, if it has to be? */
  predicate HasPane(world: World, window: Option<nat>, pane: Option<string>) {
    && window.Some?
    && (pane.Some? ==>
      window.value in world.windows && NamedPane(world, world.windows[window.value], pane.value).Some?)
  }

  /** Is a pane named in a session? */
  predicate IsPaneOf(world: World, s: Session, pane: string) {
    if Head(pane) == '%' then
      var n := world.number(pane[1..]);
      n.Some? && n.value in world.panes && LinkTo(s, world.panes[n.value]).Some?
    else HasPane(world, Some(s.curw.window), Some(pane))
  }

  /** Is a pane named without a window and a session? */
  predicate IsPaneNamed(world: World, cur: State, flags: Flags, pane: string, only: bool) {
    if Head(pane) == '%' then
      var n := world.number(pane[1..]);
      n.Some? && n.value in world.panes && IsWindowId(world, Some(world.panes[n.value]))
    else
      || (cur.w.Some? && NamedPane(world, cur.w.value, pane).Some?)
      || (!only && NamedWindow(world, cur, flags, pane, false).Some?)
  }

  /** Does everything that is named stand for something? */
  predicate IsFound(world: World, cur: State, flags: Flags, session: Option<string>, window: Option<string>,
                    pane: Option<string>, windowOnly: bool, paneOnly: bool)
  {
    if session.Some? then
      var n := NamedSession(world, session.value, flags.exactSession);
      && n.Some?
      && if window.Some? && flags.windowIndex then NamedIndex(world, n.value, window.value, flags.exactWindow).Some?
         else if window.Some? then
           var l := NamedLink(world, n.value, window.value, flags.exactWindow);
           l.Some? && HasPane(world, Some(l.value.window), pane)
         else pane.Some? ==> IsPaneOf(world, n.value, pane.value)
    else if window.Some? then
      if flags.windowIndex then IsIndexNamed(world, cur, flags, window.value, windowOnly)
      else HasPane(world, NamedWindow(world, cur, flags, window.value, windowOnly), pane)
    else pane.Some? ==> IsPaneNamed(world, cur, flags, pane.value, paneOnly)
  }

  /** Does every part of a target stand for something? No pane can be named if an index is wanted. */
  predicate PartsAreFound(world: World, cur: State, flags: Flags, parts: Parts) {
    var session, window := Strip(parts.session), Mapped(WINDOW_TABLE, Strip(parts.window));
    var pane := Mapped(PANE_TABLE, NonEmpty(parts.pane));
    && !(pane.Some? && flags.windowIndex)
    && IsFound(world, cur, Exactly(parts, flags), session, window, pane, parts.windowOnly, parts.paneOnly)
  }

  /** Does a target stand for something? */
  predicate TargetIsFound(world: World, cur: State, flags: Flags, target: Option<string>, kind: Type,
                          client: Option<Client>, mouse: Mouse)
  {
    if NonEmpty(target).None? then true
    else if IsActiveTarget(target.value) then client.Some?
    else if IsMouseTarget(target.value) then MouseState(world, mouse, kind).Some?
    else if IsMarkedTarget(target.value) then ValidState(world, world.marked)
    else PartsAreFound(world, cur, flags, Split(target.value, kind))
  }

  // ----- what a mouse event is for -----

  /** The session of an event, unless it is for a window that is not there. */
  function MouseSession(world: World, m: Mouse): (s: Option<Session>)
    ensures s.Some? ==> s.value in world.sessions
  {
    if !m.valid || m.s.None? then None
    else
      var p := FirstWithId(world.sessions, Some(m.s.value), 0);
      if p == |world.sessions| || (m.w.Some? && m.w.value !in world.windows) then None
      else Some(world.sessions[p])
  }

  /** The link of an event in its session: the first to its window, or the current one if it has none. */
  function MouseLink(m: Mouse, s: Session): (l: Option<Winlink>)
    ensures l.Some? ==> l.value == s.curw || l.value in s.links
  {
    if m.w.None? then Some(s.curw)
    else
      var k := FirstTo(s.links, m.w.value, 0);
      if k < |s.links| then Some(s.links[k]) else None
  }

  /** The pane of an event if a pane is wanted and it is in the event's window, and else the active pane of
      that window, or of the session's current one. */
  function MouseState(world: World, m: Mouse, kind: Type): Option<State> {
    var n := MouseSession(world, m);
    if n.None? then None
    else
      var own := MouseLink(m, n.value);
      var link := if own.Some? then own.value else n.value.curw;
      if link.window !in world.windows then None
      else
        var w := world.windows[link.window];
        var mine := kind == PaneTarget && own.Some? && m.wp.Some? && m.wp.value in world.panes && m.wp.value in w.panes;
        Some(State(n, Some(link), -1, Some(w), if mine then m.wp else Some(w.active)))
  }

  // ----- what a client is for -----

  /** The current window of a session and its active pane. */
  function CurrentOf(world: World, s: Session, idx: int): State {
    if s.curw.window in world.windows then
      var w := world.windows[s.curw.window];
      State(Some(s), Some(s.curw), idx, Some(w), Some(w.active))
    else State(Some(s), Some(s.curw), idx, None, None)
  }

  /** The state is in the best of some sessions, in its current window. */
  ghost predicate InBestOf(world: World, sessions: seq<Session>, prefer: bool, st: State) {
    exists k: nat :: IsBest(sessions, k, prefer) && st == CurrentOf(world, sessions[k], st.idx)
  }

  /** The window that the pane is in which an unattached client runs, if a session has it. */
  function InsideWindow(world: World, c: Option<Client>): Option<nat> {
    if c.Some? && c.value.inside.Some? && c.value.inside.value in world.panes
      && |SessionsWith(world.sessions, world.panes[c.value.inside.value])| > 0
    then Some(world.panes[c.value.inside.value])
    else None
  }

  /** What a client is for: its session, with its own active pane if it has one, or if it is unattached the
      best session with the window that it runs in, or else the best session of all. */
  ghost predicate IsClientState(world: World, prefer: bool, c: Option<Client>, st: State) {
    if c.Some? && c.value.session.Some? then
      var own := CurrentOf(world, c.value.session.value, -1);
      st == if c.value.pane.Some? then own.(wp := c.value.pane) else own
    else if InsideWindow(world, c).Some? then
      && InBestOf(world, SessionsWith(world.sessions, InsideWindow(world, c).value), prefer, st)
      && st.s.Some? && var l := LinkTo(st.s.value, InsideWindow(world, c).value); l.Some? && st.idx == l.value.idx
    else InBestOf(world, world.sessions, prefer, st) && st.wl.Some? && st.idx == st.wl.value.idx
  }

  /** A state that the search can start from: the marked pane if that is the default, else what the queue item
      is for, else what its client is for. */
  ghost predicate StartsAt(world: World, flags: Flags, client: Option<Client>, queued: State, st: State) {
    if flags.defaultMarked && ValidState(world, world.marked) then st == world.marked
    else if ValidState(world, queued) then st == queued
    else IsClientState(world, flags.preferUnattached, client, st)
  }

  class FindState {
    const world: World
    var s: Option<Session>
    var wl: Option<Winlink>
    var idx: int
    var w: Option<Window>
    var wp: Option<nat>
    var flags: Flags
    var current: State

    constructor (world: World, flags: Flags)
      ensures this.world == world && this.flags == flags && Value() == State(None, None, -1, None, None)
    {
      this.world, this.flags := world, flags;
      s, wl, idx, w, wp := None, None, -1, None, None;
      current := State(None, None, -1, None, None);
    }

    ghost function Value(): State
      reads this
    {
      State(s, wl, idx, w, wp)
    }

    /** The best link to the window in the session. */
    method BestWinlinkWithWindow() returns (ok: bool)
      requires WorldOk(world) && s.Some? && s.value in world.sessions && IsWindow(world, w)
      modifies `wl, `idx
      ensures ok <==> LinkTo(s.value, w.value.id).Some?
      ensures ok ==> wl == LinkTo(s.value, w.value.id) && idx == wl.value.idx && Linked(world, Value())
      ensures !ok ==> idx == old(idx)
    {
      var found := None;
      if s.value.curw.window == w.value.id {
        found := Some(s.value.curw);
      } else {
        var k := 0;
        while k < |s.value.links| && found.None?
          invariant 0 <= k <= |s.value.links|
          invariant found.None? ==> k <= FirstTo(s.value.links, w.value.id, 0)
          invariant found.Some? ==> found == LinkTo(s.value, w.value.id)
        {
          if s.value.links[k].window == w.value.id {
            found := Some(s.value.links[k]);
          }
          k := k + 1;
        }
      }
      if found.None? {
        return false;
      }
      assert SessionOk(world, s.value);
      wl, idx := found, found.value.idx;
      return true;
    }

    /** The sessions that have a window. */
    method ListSessions(id: nat) returns (list: seq<Session>)
      ensures list == SessionsWith(world.sessions, id)
    {
      list := [];
      var k := 0;
      while k < |world.sessions|
        invariant 0 <= k <= |world.sessions| && list == SessionsWith(world.sessions[..k], id)
      {
        assert world.sessions[..k + 1][..k] == world.sessions[..k];
        if HasWindow(world.sessions[k], id) {
          list := list + [world.sessions[k]];
        }
        k := k + 1;
      }
      assert world.sessions[..k] == world.sessions;
    }

    /** The best session that has the window, and its best link to it. */
    method BestSessionWithWindow() returns (ok: bool)
      requires WorldOk(world) && IsWindow(world, w)
      modifies `s, `wl, `idx
      ensures ok <==> |SessionsWith(world.sessions, w.value.id)| > 0
      ensures ok ==> Linked(world, Value()) && wl == LinkTo(s.value, w.value.id) && idx == wl.value.idx
      ensures ok ==> var l := SessionsWith(world.sessions, w.value.id);
        exists k: nat :: IsBest(l, k, flags.preferUnattached) && l[k] == s.value
    {
      hide WorldOk, FirstTo, Better;
      var list := ListSessions(w.value.id);
      if |list| == 0 {
        return false;
      }
      s := BestSession(list, flags.preferUnattached);
      assert s.value in list;
      ok := BestWinlinkWithWindow();
    }
  
    /** The session a string names. */
    method GetSession(name: string) returns (ok: bool)
      requires WorldOk(world)
      modifies `s
      ensures ok <==> NamedSession(world, name, flags.exactSession).Some?
      ensures ok ==> s == NamedSession(world, name, flags.exactSession) && s.value in world.sessions
    {
      hide Hits, WorldOk;
      if Head(name) == '$' {
        ok := SessionWithId(world.number(name[1..]));
        return;
      }
      var names := SessionNames(world);
      var found := FindFirst(world, name, names);
      if found.Some? {
        s := Some(world.sessions[found.value]);
        return true;
      }
      if world.clientSession(name).Some? {
        s := world.clientSession(name);
        ClientSessions(world, name);
        return true;
      }
      found := FindByName(world, name, names, flags.exactSession);
      if found.None? {
        s := None;
        return false;
      }
      s := Some(world.sessions[found.value]);
      return true;
    }

    method SessionWithId(id: Option<int>) returns (ok: bool)
      modifies `s
      ensures var p := FirstWithId(world.sessions, id, 0);
        && ok == (p < |world.sessions|) && s == if ok then Some(world.sessions[p]) else None
    {
      var k := 0;
      while k < |world.sessions|
        invariant 0 <= k <= |world.sessions| && k <= FirstWithId(world.sessions, id, 0)
      {
        if id == Some(world.sessions[k].id) {
          s := Some(world.sessions[k]);
          return true;
        }
        k := k + 1;
      }
      s := None;
      return false;
    }

    /** The window a string names in the session. With an index wanted, an index alone will do. */
    method GetWindowWithSession(window: string) returns (ok: bool)
      requires WorldOk(world) && s.Some? && s.value in world.sessions
      modifies `wl, `idx, `w
      ensures !flags.windowIndex ==> (ok <==> NamedLink(world, s.value, window, flags.exactWindow).Some?)
      ensures !flags.windowIndex && ok ==>
        wl == NamedLink(world, s.value, window, flags.exactWindow) && idx == wl.value.idx && Linked(world, Value())
      ensures flags.windowIndex ==> (ok <==> NamedIndex(world, s.value, window, flags.exactWindow).Some?)
      ensures flags.windowIndex && ok ==> NamedIndex(world, s.value, window, flags.exactWindow) == Some((wl, idx))
      ensures ok && wl.Some? ==> Linked(world, Value())
      ensures !ok ==> idx == old(idx)
    {
      hide Steps, Offset, ByName, LinkTo, FirstAt, LinkNames, InRange, HasWindow;
      assert SessionOk(world, s.value);
      NamedLinksAreThere(world, s.value, window, flags.exactWindow);
      var session, exact := s.value, flags.exactWindow;
      SetLink(session.curw);
      if Head(window) == '@' {
        var id := world.number(window[1..]);
        if id.None? || id.value < 0 || id.value !in world.windows {
          return false;
        }
        if !HasWindow(session, id.value) {
          NoLink(session, id.value);
          return false;
        }
        w := Some(world.windows[id.value]);
        ok := BestWinlinkWithWindow();
        return;
      }
      if !exact && IsOffset(window) {
        var n, forward := Offset(world, window), Head(window) == '+';
        if flags.windowIndex {
          ok := OffsetIndex(session.curw.idx, n, forward);
          return;
        }
        var l := StepLinks(session.links, session.curw, n, forward);
        SetLinkAndIndex(l);
        return true;
      }
      if !exact && IsSpecial(window) {
        var list := if window == "!" then session.last else session.links;
        if |list| == 0 {
          wl := None;
          return false;
        }
        SetLinkAndIndex(if window == "$" then list[|list| - 1] else list[0]);
        return true;
      }
      if !IsOffset(window) {
        var n := InRange(world.number(window), 0);
        if n.Some? {
          var p := FindIndex(session.links, n.value);
          if p < |session.links| {
            SetLinkAndIndex(session.links[p]);
            return true;
          }
          wl := None;
          if flags.windowIndex {
            idx := n.value;
            return true;
          }
        }
      }
      var found := FindByName(world, window, LinkNames(world, session), exact);
      if found.None? {
        wl := None;
        return false;
      }
      SetLinkAndIndex(session.links[found.value]);
      return true;
    }

    method SetLink(l: Winlink)
      requires l.window in world.windows
      modifies `wl, `w
      ensures wl == Some(l) && w == Some(world.windows[l.window])
    {
      wl, w := Some(l), Some(world.windows[l.window]);
    }

    method SetLinkAndIndex(l: Winlink)
      requires l.window in world.windows
      modifies `wl, `w, `idx
      ensures wl == Some(l) && w == Some(world.windows[l.window]) && idx == l.idx
    {
      wl, w, idx := Some(l), Some(world.windows[l.window]), l.idx;
    }

    /** An index at an offset from the current one, if there is such an index. */
    method OffsetIndex(at: int, n: nat, forward: bool) returns (ok: bool)
      modifies `idx
      ensures ok <==> if forward then n <= INT_MAX - at else n <= at
      ensures idx == if ok then if forward then at + n else at - n else old(idx)
    {
      if forward {
        if INT_MAX - at < n {
          return false;
        }
        idx := at + n;
      } else {
        if n > at {
          return false;
        }
        idx := at - n;
      }
      return true;
    }

    method StepLinks(links: seq<Winlink>, from: Winlink, n: nat, forward: bool) returns (l: Winlink)
      ensures l == Steps(links, from, n, forward)
    {
      l := from;
      var k := n;
      while k > 0
        invariant 0 <= k && Steps(links, l, k, forward) == Steps(links, from, n, forward)
      {
        l := Beside(links, l, forward);
        k := k - 1;
      }
    }

    method FindIndex(links: seq<Winlink>, index: int) returns (p: nat)
      ensures p == FirstAt(links, index, 0)
    {
      p := 0;
      while p < |links| && links[p].idx != index
        invariant 0 <= p <= |links| && p <= FirstAt(links, index, 0)
      {
        p := p + 1;
      }
    }

    /** The state is the best one for the window of an id. */
    ghost predicate InBest(id: nat)
      reads this
    {
      && s.Some? && wl == LinkTo(s.value, id)
      && var l := SessionsWith(world.sessions, id);
      exists k: nat :: IsBest(l, k, flags.preferUnattached) && l[k] == s.value
    }

    /** What a window without a session stands for: a window of that id in the best session that has it,
        else the link named in the current session, else the current window of the session named. */
    ghost predicate NamesWindow(window: string, only: bool)
      reads this
    {
      if Head(window) == '@' then w.Some? && Some(w.value.id) == world.number(window[1..]) && InBest(w.value.id)
      else
        && current.s.Some? && s.Some?
        && var l := NamedLink(world, current.s.value, window, flags.exactWindow);
        if l.Some? then s == current.s && wl == l
        else !only && s == NamedSession(world, window, flags.exactSession) && wl == Some(s.value.curw)
    }

    /** What it stands for when an index is wanted; a session has none. */
    ghost predicate NamesIndex(window: string, only: bool, none: int)
      reads this
    {
      if Head(window) == '@' then NamesWindow(window, only) && wl.Some? && idx == wl.value.idx
      else
        && current.s.Some? && s.Some?
        && var i := NamedIndex(world, current.s.value, window, flags.exactWindow);
        if i.Some? then s == current.s && i == Some((wl, idx))
        else !only && s == NamedSession(world, window, flags.exactSession) && wl == Some(s.value.curw) && idx == none
    }

    /** What a pane without a window and a session stands for: a pane of that id, else the pane named in
        the current window, else the active pane of the window named. */
    ghost predicate NamesPane(pane: string, only: bool)
      reads this
    {
      && w.Some?
      && if Head(pane) == '%' then wp == NamedPane(world, w.value, pane) && InBest(w.value.id)
         else
           && current.w.Some?
           && var p := NamedPane(world, current.w.value, pane);
           if p.Some? then State(s, wl, idx, w, None) == current.(wp := None) && wp == p
           else !only && NamesWindow(pane, false) && wp == Some(w.value.active)
    }

    /** The window a string names, in the current session unless it is an id, or else the current window
        of the session it names. */
    method GetWindow(window: string, only: bool) returns (ok: bool)
      requires WorldOk(world) && current.s.Some? && current.s.value in world.sessions
      modifies `s, `wl, `idx, `w
      ensures ok && wl.Some? ==> Linked(world, Value())
      ensures ok && !flags.windowIndex ==> wl.Some? && NamesWindow(window, only)
      ensures ok && flags.windowIndex ==> NamesIndex(window, only, old(idx))
      ensures !flags.windowIndex ==> (ok <==> NamedWindow(world, current, flags, window, only).Some?)
      ensures !flags.windowIndex && ok ==> Some(w.value.id) == NamedWindow(world, current, flags, window, only)
      ensures flags.windowIndex ==> (ok <==> IsIndexNamed(world, current, flags, window, only))
    {
      hide NamedLink, NamedIndex, NamedSession, SessionsWith, Better;
      if Head(window) == '@' {
        var id := world.number(window[1..]);
        if id.None? || id.value < 0 || id.value !in world.windows {
          return false;
        }
        w := Some(world.windows[id.value]);
        ok := BestSessionWithWindow();
        return;
      }
      s := current.s;
      ok := GetWindowWithSession(window);
      if ok {
        return;
      }
      if !only {
        ok := GetSession(window);
        if ok {
          UseCurrentWindow();
          if !flags.windowIndex {
            idx := wl.value.idx;
          }
        }
      }
    }

    method UseCurrentWindow()
      requires WorldOk(world) && s.Some? && s.value in world.sessions
      modifies `wl, `w
      ensures wl == Some(s.value.curw) && Linked(world, Value())
    {
      assert SessionOk(world, s.value);
      wl, w := Some(s.value.curw), Some(world.windows[s.value.curw.window]);
    }

    /** The pane a string names in the window. */
    method GetPaneWithWindow(pane: string) returns (ok: bool)
      requires WorldOk(world) && IsWindow(world, w)
      modifies `wp
      ensures ok <==> NamedPane(world, w.value, pane).Some?
      ensures ok ==> wp == NamedPane(world, w.value, pane) && wp.value in w.value.panes
    {
      hide Steps, Offset, Beside;
      NamedPanesAreThere(world, w.value, pane);
      if Head(pane) == '%' {
        var id := world.number(pane[1..]);
        if id.None? || id.value < 0 || id.value !in world.panes {
          wp := None;
          return false;
        }
        wp := Some(id.value);
        return world.panes[id.value] == w.value.id;
      }
      if pane == "!" {
        wp := if |w.value.last| > 0 then Some(w.value.last[0]) else None;
        return wp.Some?;
      }
      if SideOf(pane).Some? {
        wp := world.beside(SideOf(pane).value, w.value.active);
        return wp.Some?;
      }
      if IsOffset(pane) {
        wp := StepPanes(w.value.panes, w.value.active, Offset(world, pane), Head(pane) == '+');
        return true;
      }
      var n := InRange(world.number(pane), 0);
      if n.Some? && w.value.base <= n.value < w.value.base + |w.value.panes| {
        wp := Some(w.value.panes[n.value - w.value.base]);
        return true;
      }
      wp := world.described(w.value.id, pane);
      return wp.Some?;
    }

    method StepPanes(panes: seq<nat>, from: nat, n: nat, forward: bool) returns (found: Option<nat>)
      ensures found == Some(Steps(panes, from, n, forward))
    {
      var p, k := from, n;
      while k > 0
        invariant 0 <= k && Steps(panes, p, k, forward) == Steps(panes, from, n, forward)
      {
        p := Beside(panes, p, forward);
        k := k - 1;
      }
      found := Some(p);
    }

    /** The pane of an id, and its window. */
    method PaneById(pane: string) returns (ok: bool)
      requires WorldOk(world) && Head(pane) == '%'
      modifies `wp, `w
      ensures ok ==> IsWindow(world, w) && wp.Some? && wp.value in w.value.panes
      ensures ok ==> Some(wp.value) == world.number(pane[1..])
      ensures ok ==> wp == NamedPane(world, w.value, pane)
      ensures var n := world.number(pane[1..]); ok <==> n.Some? && n.value in world.panes
      ensures ok ==> w.value.id == world.panes[wp.value]
    {
      var id := world.number(pane[1..]);
      if id.None? || id.value < 0 || id.value !in world.panes {
        wp := None;
        return false;
      }
      wp, w := Some(id.value), Some(world.windows[world.panes[id.value]]);
      return true;
    }

    /** The pane a string names, in the current window unless it is an id, or else the active pane of the
        window it names. */
    method GetPane(pane: string, only: bool) returns (ok: bool)
      requires WorldOk(world) && ValidState(world, current) && !flags.windowIndex
      modifies `s, `wl, `idx, `w, `wp
      ensures ok ==> ValidState(world, Value()) && NamesPane(pane, only)
      ensures ok <==> IsPaneNamed(world, current, flags, pane, only)
    {
      hide NamedPane, NamedLink, NamedSession, SessionsWith;
      if Head(pane) == '%' {
        ok := PaneById(pane);
        if ok {
          ok := BestSessionWithWindow();
        }
        return;
      }
      s, wl, idx, w := current.s, current.wl, current.idx, current.w;
      assert w.value.id == wl.value.window by { WindowIds(world, wl.value.window); }
      ok := GetPaneWithWindow(pane);
      if ok {
        return;
      }
      if !only {
        ok := GetWindow(pane, false);
        if ok {
          UseActivePane();
        }
      }
    }

    method UseActivePane()
      requires WorldOk(world) && Linked(world, Value())
      modifies `wp
      ensures ValidState(world, Value()) && wp == Some(w.value.active)
    {
      wp := Some(w.value.active);
      assert WindowOk(world, world.windows[wl.value.window]);
    }

    /** The pane a string names in the session, in its current window unless it is an id. */
    method GetPaneWithSession(pane: string) returns (ok: bool)
      requires WorldOk(world) && s.Some? && s.value in world.sessions
      modifies `wl, `idx, `w, `wp
      ensures ok ==> ValidState(world, Value()) && wp == NamedPane(world, w.value, pane)
      ensures ok ==> wl == if Head(pane) == '%' then LinkTo(s.value, w.value.id) else Some(s.value.curw)
      ensures ok <==> IsPaneOf(world, s.value, pane)
    {
      hide NamedPane;
      if Head(pane) == '%' {
        ok := PaneById(pane);
        if ok {
          ok := BestWinlinkWithWindow();
        }
        return;
      }
      UseCurrentWindow();
      idx := wl.value.idx;
      WindowIds(world, wl.value.window);
      ok := GetPaneWithWindow(pane);
    }

    method SetState(st: State)
      modifies `s, `wl, `idx, `w, `wp
      ensures Value() == st
    {
      s, wl, idx, w, wp := st.s, st.wl, st.idx, st.w, st.wp;
    }

    /** The link a mouse event is for, and its session. */
    method MouseWindow(m: Mouse) returns (link: Option<Winlink>)
      requires WorldOk(world)
      modifies `s
      ensures link.Some? ==> s.Some? && s.value in world.sessions && LinkOk(world, s.value, link.value)
      ensures var n := MouseSession(world, m);
        && s == (if n.Some? then n else old(s))
        && link == if n.Some? then MouseLink(m, n.value) else None
    {
      if !m.valid || m.s.None? {
        return None;
      }
      var p := FirstWithId(world.sessions, Some(m.s.value), 0);
      if p == |world.sessions| {
        return None;
      }
      var session := world.sessions[p];
      assert SessionOk(world, session);
      if m.w.None? {
        link := Some(session.curw);
      } else {
        if m.w.value !in world.windows {
          return None;
        }
        var k := FirstTo(session.links, m.w.value, 0);
        link := if k < |session.links| then Some(session.links[k]) else None;
      }
      s := Some(session);
    }

    /** The pane a mouse event is in, its link and its session. */
    method MousePane(m: Mouse) returns (pane: Option<nat>)
      requires WorldOk(world) && s.None?
      modifies `s, `wl
      ensures pane.Some? ==>
        && s.Some? && s.value in world.sessions && wl.Some? && LinkOk(world, s.value, wl.value)
        && pane.value in world.windows[wl.value.window].panes
      ensures pane.None? ==> wl == old(wl)
      ensures s == MouseSession(world, m)
      ensures pane.Some? <==>
        && s.Some? && MouseLink(m, s.value).Some?
        && (m.wp.Some? ==>
          && m.wp.value in world.panes && MouseLink(m, s.value).value.window in world.windows
          && m.wp.value in world.windows[MouseLink(m, s.value).value.window].panes)
      ensures pane.Some? ==>
        && wl == MouseLink(m, s.value)
        && pane == if m.wp.Some? then m.wp else Some(world.windows[wl.value.window].active)
    {
      var link := MouseWindow(m);
      if link.None? {
        return None;
      }
      var window := world.windows[link.value.window];
      assert WindowOk(world, window);
      if m.wp.None? {
        pane := Some(window.active);
      } else {
        if m.wp.value !in world.panes || m.wp.value !in window.panes {
          return None;
        }
        pane := m.wp;
      }
      wl := link;
    }

    /** The target of a mouse event. */
    method FindMouse(m: Mouse, kind: Type) returns (ok: bool)
      requires WorldOk(world) && Value() == State(None, None, -1, None, None)
      modifies `s, `wl, `w, `wp
      ensures ok ==> ValidState(world, Value())
      ensures ok <==> MouseState(world, m, kind).Some?
      ensures ok ==> Some(Value()) == MouseState(world, m, kind)
    {
      if kind == PaneTarget {
        wp := MousePane(m);
        if wp.Some? {
          w := Some(world.windows[wl.value.window]);
          return true;
        }
      }
      wl := MouseWindow(m);
      if wl.None? && s.Some? {
        wl := Some(s.value.curw);
      }
      assert s.Some? ==> SessionOk(world, s.value);
      if wl.Some? {
        assert SessionOk(world, s.value);
        w := Some(world.windows[wl.value.window]);
        UseActivePane();
        return true;
      }
      return false;
    }

    /** The state of no client in particular: the best session. */
    method FromNothing() returns (ok: bool)
      requires WorldOk(world)
      modifies `s, `wl, `idx, `w, `wp
      ensures ok <==> |world.sessions| > 0
      ensures ok ==> ValidState(world, Value()) && wl.Some? && idx == wl.value.idx
      ensures ok ==> InBestOf(world, world.sessions, flags.preferUnattached, Value())
    {
      s := BestSession(world.sessions, flags.preferUnattached);
      if s.None? {
        return false;
      }
      UseCurrentWindow();
      idx := wl.value.idx;
      UseActivePane();
      return true;
    }

    /** The state of a client: the current window of its session, or that of the best session with the
        pane that it runs in, or else of the best session. */
    method FromClient(c: Option<Client>) returns (ok: bool)
      requires WorldOk(world) && (c.Some? ==> ClientOk(world, c.value))
      modifies `s, `wl, `idx, `w, `wp
      ensures ok ==> ValidState(world, Value())
      ensures ok <==> |world.sessions| > 0
      ensures ok ==> IsClientState(world, flags.preferUnattached, c, Value())
    {
      hide Better, SessionsWith, IsBest, InBestOf, LinkTo;
      if c.None? {
        ok := FromNothing();
        return;
      }
      SetState(State(None, None, -1, None, None));
      if c.value.session.Some? {
        s := c.value.session;
        UseCurrentWindow();
        if c.value.pane.None? {
          UseActivePane();
        } else {
          wp := c.value.pane;
        }
        return true;
      }
      if c.value.inside.Some? && c.value.inside.value in world.panes {
        ok := FromInside(world.panes[c.value.inside.value]);
        if ok {
          return;
        }
      }
      ok := FromNothing();
      NoSessionsWith(world, c);
    }

    /** The state of a client that runs in a pane of a window: the best session that has the window. */
    method FromInside(id: nat) returns (ok: bool)
      requires WorldOk(world) && id in world.windows
      modifies `s, `wl, `idx, `w, `wp
      ensures ok <==> |SessionsWith(world.sessions, id)| > 0
      ensures ok ==> ValidState(world, Value())
      ensures ok ==> InBestOf(world, SessionsWith(world.sessions, id), flags.preferUnattached, Value())
      ensures ok ==> LinkTo(s.value, id).Some? && idx == LinkTo(s.value, id).value.idx
    {
      hide FirstTo, Better, SessionsWith;
      WindowIds(world, id);
      w := Some(world.windows[id]);
      ok := BestSessionWithWindow();
      if ok {
        ghost var k: nat :| IsBest(SessionsWith(world.sessions, id), k, flags.preferUnattached)
          && SessionsWith(world.sessions, id)[k] == s.value;
        UseCurrentWindow();
        UseActivePane();
        assert Value() == CurrentOf(world, SessionsWith(world.sessions, id)[k], idx);
      }
    }

    /** Find the state that an empty target stands for: the marked pane if that is the default, what the
        queue item is for, or what its client is for. */
    method FindCurrent(client: Option<Client>, queued: State) returns (ok: bool)
      requires WorldOk(world) && (client.Some? ==> ClientOk(world, client.value))
      modifies `current
      ensures ok <==> |world.sessions| > 0
      ensures ok ==> ValidState(world, current) && StartsAt(world, flags, client, queued, current)
    {
      if flags.defaultMarked && ValidState(world, world.marked) {
        current := world.marked;
        return true;
      }
      if ValidState(world, queued) {
        current := queued;
        return true;
      }
      var search := new FindState(world, flags);
      ok := search.FromClient(client);
      if ok {
        current := State(search.s, search.wl, search.idx, search.w, search.wp);
      }
    }

    /** Look up the parts of a target that are given, and fill in the others from what they are in. */
    method Resolve(session: Option<string>, window: Option<string>, pane: Option<string>, windowOnly: bool,
                   paneOnly: bool)
      returns (ok: bool)
      requires WorldOk(world) && ValidState(world, current) && (flags.windowIndex ==> pane.None?)
      modifies `s, `wl, `idx, `w, `wp
      ensures ok && !flags.windowIndex ==> ValidState(world, Value())
      ensures ok && !flags.windowIndex ==> Names(session, window, pane, windowOnly, paneOnly)
      ensures ok && flags.windowIndex ==> WantsIndex(session, window, windowOnly, old(idx))
      ensures ok && session.None? && window.None? && pane.None? ==>
        Value() == if flags.windowIndex then current.(idx := -1) else current
      ensures ok <==> IsFound(world, current, flags, session, window, pane, windowOnly, paneOnly)
    {
      hide NamedSession, NamedLink, NamedIndex, NamedPane, WorldOk;
      if session.Some? {
        ok := GetSession(session.value);
        if !ok {
          return false;
        }
        if window.None? && pane.None? {
          UseCurrentWindow();
          idx := -1;
          UseActivePane();
          return true;
        }
        if window.None? {
          ok := GetPaneWithSession(pane.value);
          return;
        }
        ok := GetWindowWithSession(window.value);
      } else if window.Some? {
        ok := GetWindow(window.value, windowOnly);
      } else if pane.Some? {
        ok := GetPane(pane.value, paneOnly);
        return;
      } else {
        SetState(current);
        if flags.windowIndex {
          idx := -1;
        }
        return true;
      }
      if !ok {
        return false;
      }
      if pane.None? {
        if wl.Some? {
          UseActivePane();
        }
        return true;
      }
      WindowIds(world, wl.value.window);
      ok := GetPaneWithWindow(pane.value);
    }

    /** The current window of the client: the session is not filled in. */
    method FindActive(client: Option<Client>) returns (ok: bool)
      requires WorldOk(world) && Value() == State(None, None, -1, None, None)
      requires client.Some? ==> ClientOk(world, client.value) && client.value.session.Some?
      modifies `wl, `w, `wp
      ensures ok <==> client.Some?
      ensures ok ==>
        && Value() == CurrentOf(world, client.value.session.value, -1).(s := None)
        && !ValidState(world, Value())
    {
      if client.None? {
        return false;
      }
      var link := client.value.session.value.curw;
      assert SessionOk(world, client.value.session.value);
      wl, w := Some(link), Some(world.windows[link.window]);
      wp := Some(w.value.active);
      return true;
    }

    method FindMarked() returns (ok: bool)
      modifies `s, `wl, `idx, `w, `wp
      ensures ok <==> ValidState(world, world.marked)
      ensures ok ==> Value() == world.marked
    {
      if !ValidState(world, world.marked) {
        return false;
      }
      SetState(world.marked);
      return true;
    }

    /** Find what a target stands for. It is found exactly if there is a session and all its parts stand for
        something. Then, unless an index is wanted, the state is valid, except for the targets that name the
        current window of the client. */
    method FindTarget(target: Option<string>, kind: Type, client: Option<Client>, queued: State, mouse: Mouse)
      returns (ok: bool)
      requires WorldOk(world) && Value() == State(None, None, -1, None, None)
      requires client.Some? ==> ClientOk(world, client.value)
      requires target.Some? && IsActiveTarget(target.value) && client.Some? ==> client.value.session.Some?
      modifies this
      ensures ok <==>
        || old(flags).canFail
        || (|world.sessions| > 0 && TargetIsFound(world, current, old(flags), target, kind, client, mouse))
      ensures |world.sessions| > 0 ==> StartsAt(world, old(flags), client, queued, current)
      ensures |world.sessions| > 0 && TargetIsFound(world, current, old(flags), target, kind, client, mouse) ==>
        && Stands(target, kind, old(flags), client, mouse)
        && (!old(flags).windowIndex ==>
          (ValidState(world, Value()) <==> !(target.Some? && IsActiveTarget(target.value))))
    {
      ok := FindTargetOrFail(target, kind, client, queued, mouse);
      ok := ok || flags.canFail;
    }

    /** What a target says about the state: an empty one is what the search starts from, and the parts of
        others are what their names stand for. */
    ghost predicate Stands(target: Option<string>, kind: Type, before: Flags, client: Option<Client>, mouse: Mouse)
      reads this
    {
      if NonEmpty(target).None? then Value() == if flags.windowIndex then current.(idx := -1) else current
      else if IsActiveTarget(target.value) then
        && client.Some? && client.value.session.Some?
        && Value() == CurrentOf(world, client.value.session.value, -1).(s := None)
      else if IsMouseTarget(target.value) then Some(Value()) == MouseState(world, mouse, kind)
      else if IsMarkedTarget(target.value) then Value() == world.marked
      else flags == Exactly(Split(target.value, kind), before) && NamesParts(Split(target.value, kind))
    }

    ghost predicate NamesParts(parts: Parts)
      reads this
    {
      var session, window := Strip(parts.session), Mapped(WINDOW_TABLE, Strip(parts.window));
      var pane := Mapped(PANE_TABLE, NonEmpty(parts.pane));
      if flags.windowIndex then pane.None? && WantsIndex(session, window, parts.windowOnly, -1)
      else Names(session, window, pane, parts.windowOnly, parts.paneOnly)
    }

    /** The session, the window and the pane are what their names stand for, and what has no name is what
        is current or active in the others. */
    ghost predicate Names(session: Option<string>, window: Option<string>, pane: Option<string>, windowOnly: bool,
                          paneOnly: bool)
      reads this
    {
      if session.None? && window.None? && pane.None? then Value() == current
      else if session.None? && window.None? then NamesPane(pane.value, paneOnly)
      else
        && s.Some? && w.Some?
        && wp == (if pane.Some? then NamedPane(world, w.value, pane.value) else Some(w.value.active))
        && (session.Some? ==> s == NamedSession(world, session.value, flags.exactSession))
        && if session.None? then NamesWindow(window.value, windowOnly)
           else if window.Some? then wl == NamedLink(world, s.value, window.value, flags.exactWindow)
           else if pane.Some? && Head(pane.value) == '%' then wl == LinkTo(s.value, w.value.id)
           else wl == Some(s.value.curw)
    }

    /** The same when an index is wanted; there is one only if there is a window. */
    ghost predicate WantsIndex(session: Option<string>, window: Option<string>, windowOnly: bool, none: int)
      reads this
    {
      if session.None? && window.None? then Value() == current.(idx := -1)
      else
        && s.Some? && (wl.Some? ==> w.Some? && wp == Some(w.value.active))
        && (session.Some? ==> s == NamedSession(world, session.value, flags.exactSession))
        && if session.None? then NamesIndex(window.value, windowOnly, none)
           else if window.Some? then NamedIndex(world, s.value, window.value, flags.exactWindow) == Some((wl, idx))
           else wl == Some(s.value.curw) && idx == -1
    }

    method FindTargetOrFail(target: Option<string>, kind: Type, client: Option<Client>, queued: State, mouse: Mouse)
      returns (ok: bool)
      requires WorldOk(world) && Value() == State(None, None, -1, None, None)
      requires client.Some? ==> ClientOk(world, client.value)
      requires target.Some? && IsActiveTarget(target.value) && client.Some? ==> client.value.session.Some?
      modifies this
      ensures flags.canFail == old(flags).canFail
      ensures ok && !old(flags).windowIndex ==>
        (ValidState(world, Value()) <==> !(target.Some? && IsActiveTarget(target.value)))
      ensures ok <==> |world.sessions| > 0 && TargetIsFound(world, current, old(flags), target, kind, client, mouse)
      ensures |world.sessions| > 0 ==> StartsAt(world, old(flags), client, queued, current)
      ensures ok ==> Stands(target, kind, old(flags), client, mouse)
    {
      hide WorldOk, ClientOk, ValidState, TargetIsFound, StartsAt, FindState.Stands;
      ok := FindCurrent(client, queued);
      if ok {
        ok := FindFromCurrent(target, kind, client, mouse);
      }
    }

    /** Find what a target stands for, starting from the current state. */
    method FindFromCurrent(target: Option<string>, kind: Type, client: Option<Client>, mouse: Mouse) returns (ok: bool)
      requires WorldOk(world) && ValidState(world, current) && Value() == State(None, None, -1, None, None)
      requires client.Some? ==> ClientOk(world, client.value)
      requires target.Some? && IsActiveTarget(target.value) && client.Some? ==> client.value.session.Some?
      modifies this
      ensures current == old(current) && flags.canFail == old(flags).canFail
      ensures ok && !old(flags).windowIndex ==>
        (ValidState(world, Value()) <==> !(target.Some? && IsActiveTarget(target.value)))
      ensures ok <==> TargetIsFound(world, current, old(flags), target, kind, client, mouse)
      ensures ok ==> Stands(target, kind, old(flags), client, mouse)
    {
      hide WorldOk, ClientOk, ValidState, Split, Exactly, IsActiveTarget, IsMouseTarget, IsMarkedTarget;
      hide FindState.NamesParts, FindState.Names, FindState.WantsIndex;
      hide MouseState, PartsAreFound, IsFound, CurrentOf;
      if target.None? || target.value == "" {
        NothingIsActive();
        NothingToFind(world, current, flags);
        ok := Resolve(None, None, None, false, false);
        return;
      }
      if IsActiveTarget(target.value) {
        ok := FindActive(client);
        return;
      }
      if IsMouseTarget(target.value) {
        ok := FindMouse(mouse, kind);
        return;
      }
      if IsMarkedTarget(target.value) {
        ok := FindMarked();
        return;
      }
      ok := FindParts(Split(target.value, kind));
    }

    lemma NothingToFind(world: World, cur: State, flags: Flags)
      ensures IsFound(world, cur, flags, None, None, None, false, false)
    {
    }

    lemma NothingIsActive()
      ensures !IsActiveTarget("")
    {
    }

    /** Find what the parts of a target stand for. */
    method FindParts(parts: Parts) returns (ok: bool)
      requires WorldOk(world) && ValidState(world, current) && Value() == State(None, None, -1, None, None)
      modifies this
      ensures current == old(current) && flags == Exactly(parts, old(flags))
      ensures flags.canFail == old(flags).canFail && flags.windowIndex == old(flags).windowIndex
      ensures ok && !flags.windowIndex ==> ValidState(world, Value())
      ensures ok ==> NamesParts(parts)
      ensures ok <==> PartsAreFound(world, current, old(flags), parts)
    {
      hide NamedSession, NamedLink, NamedPane, WorldOk, MapTable, WINDOW_TABLE, PANE_TABLE, Mapped, Strip, NonEmpty;
      if IsExact(parts.session) {
        flags := flags.(exactSession := true);
      }
      if IsExact(parts.window) {
        flags := flags.(exactWindow := true);
      }
      var window, pane := Mapped(WINDOW_TABLE, Strip(parts.window)), Mapped(PANE_TABLE, NonEmpty(parts.pane));
      if pane.Some? && flags.windowIndex {
        return false;
      }
      ok := Resolve(Strip(parts.session), window, pane, parts.windowOnly, parts.paneOnly);
    }
  }

  lemma WindowIds(world: World, i: nat)
    requires WorldOk(world) && i in world.windows
    ensures world.windows[i].id == i
  {
  }

  lemma NamedPanesAreThere(world: World, w: Window, pane: string)
    requires WorldOk(world) && IsWindow(world, Some(w))
    ensures NamedPane(world, w, pane).Some? ==> NamedPane(world, w, pane).value in w.panes
  {
    if NamedPane(world, w, pane).Some? {
      NamedPaneIsThere(world, w, pane);
    }
  }

  lemma NamedLinksAreThere(world: World, s: Session, window: string, exact: bool)
    requires WorldOk(world) && s in world.sessions
    ensures NamedLink(world, s, window, exact).Some? ==> LinkOk(world, s, NamedLink(world, s, window, exact).value)
  {
    if NamedLink(world, s, window, exact).Some? {
      NamedLinkIsThere(world, s, window, exact);
    }
  }

  lemma NoSessionsWith(world: World, c: Option<Client>)
    ensures InsideWindow(world, c).Some? ==> |world.sessions| > 0
  {
  }

  lemma NoLink(s: Session, id: nat)
    requires s.curw in s.links && !HasWindow(s, id)
    ensures LinkTo(s, id).None?
  {
  }

  lemma ClientSessions(world: World, name: string)
    requires WorldOk(world) && world.clientSession(name).Some?
    ensures world.clientSession(name).value in world.sessions
  {
  }

  /** Look for the first name that is exactly this. */
  method FindFirst(world: World, name: string, names: seq<string>) returns (found: Option<nat>)
    ensures var h := Hits(world, Exact, name, names, 0);
      found == if |h| > 0 then Some(h[0]) else None
  {
    found := None;
    var k := 0;
    while k < |names|
      invariant 0 <= k <= |names|
      invariant Hits(world, Exact, name, names, 0) == Hits(world, Exact, name, names, k)
    {
      if names[k] == name {
        return Some(k);
      }
      k := k + 1;
    }
  }

  /** Look for the name that ByName finds. */
  method FindByName(world: World, wanted: string, names: seq<string>, exactOnly: bool) returns (found: Option<nat>)
    ensures found == ByName(world, wanted, names, exactOnly)
  {
    hide Hits;
    var several;
    found, several := FindOnly(world, Exact, wanted, names);
    if several || found.Some? || exactOnly {
      return;
    }
    found, several := FindOnly(world, Prefix, wanted, names);
    if several || found.Some? {
      return;
    }
    found, several := FindOnly(world, Pattern, wanted, names);
  }
}
