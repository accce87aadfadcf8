/** Building command lists from parsed commands: the commands of one line get one group. */
module CmdParse {
  import opened Common
  import opened CmdLists

  /** A parsed command of a line, with commands in braces as its arguments, or an alias with the commands
      that it stands for. */
  datatype Parsed =
    | Command(line: nat, entry: Entry, arguments: seq<Braces>)
    | Alias(line: nat, commands: seq<Parsed>)

  datatype Braces = Braces(commands: seq<Parsed>)

  /** The commands behind the aliases. */
  function FlatOne(cmd: Parsed): seq<Entry>
    decreases cmd
  {
    match cmd
    case Command(_, entry, _) => [entry]
    case Alias(_, commands) => Flat(commands)
  }

  function Flat(cmds: seq<Parsed>): seq<Entry>
    decreases cmds
  {
    if |cmds| == 0 then [] else Flat(cmds[..|cmds| - 1]) + FlatOne(cmds[|cmds| - 1])
  }

  /** Does the last command start a line? With one group for all, only the first does. */
  predicate StartsLine(cmds: seq<Parsed>, oneGroup: bool)
    requires |cmds| > 0
  {
    |cmds| == 1 || (!oneGroup && cmds[|cmds| - 1].line != cmds[|cmds| - 2].line)
  }

  /** The number of the line of the last command. */
  function LineNumber(cmds: seq<Parsed>, oneGroup: bool): nat {
    if |cmds| <= 1 then 0
    else LineNumber(cmds[..|cmds| - 1], oneGroup) + if StartsLine(cmds, oneGroup) then 1 else 0
  }

  /** The numbers of the lines of all commands. */
  function LineNumbers(cmds: seq<Parsed>, oneGroup: bool): (ns: seq<nat>)
    ensures |ns| == |Flat(cmds)|
    ensures forall k :: 0 <= k < |ns| ==> ns[k] <= LineNumber(cmds, oneGroup)
  {
    if |cmds| == 0 then []
    else LineNumbers(cmds[..|cmds| - 1], oneGroup) + Constant(|FlatOne(cmds[|cmds| - 1])|, LineNumber(cmds, oneGroup))
  }

  /** Two commands are on the same line exactly if all lines from one to the other are the same, or if one
      group is wanted for all. */
  lemma {:induction false} LineMeans(cmds: seq<Parsed>, oneGroup: bool, i: nat, j: nat)
    requires i <= j < |cmds|
    ensures LineNumber(cmds[..i + 1], oneGroup) <= LineNumber(cmds[..j + 1], oneGroup)
    ensures LineNumber(cmds[..i + 1], oneGroup) == LineNumber(cmds[..j + 1], oneGroup) <==>
      oneGroup || forall k :: i <= k < j ==> cmds[k].line == cmds[k + 1].line
    decreases j - i
  {
    if i < j {
      LineMeans(cmds, oneGroup, i, j - 1);
      assert cmds[..j + 1][..j] == cmds[..j - 1 + 1];
    }
  }

  /** The commands without aliases are numbered one by one. */
  lemma {:induction false} LinesOfPlain(cmds: seq<Parsed>, oneGroup: bool)
    requires forall c :: c in cmds ==> c.Command?
    ensures |Flat(cmds)| == |LineNumbers(cmds, oneGroup)| == |cmds|
    ensures forall k :: 0 <= k < |cmds| ==>
      Flat(cmds)[k] == cmds[k].entry && LineNumbers(cmds, oneGroup)[k] == LineNumber(cmds[..k + 1], oneGroup)
  {
    hide LineNumber;
    if |cmds| > 0 {
      var n := |cmds| - 1;
      LinesOfPlain(cmds[..n], oneGroup);
      assert FlatOne(cmds[n]) == [cmds[n].entry];
      forall k | 0 <= k < |cmds|
        ensures Flat(cmds)[k] == cmds[k].entry && LineNumbers(cmds, oneGroup)[k] == LineNumber(cmds[..k + 1], oneGroup)
      {
        if k < n {
          assert cmds[..n][..k + 1] == cmds[..k + 1];
        } else {
          assert cmds[..n + 1] == cmds;
        }
      }
    }
  }

  // ----- how many group numbers are taken -----

  function TakesOne(cmd: Parsed, oneGroup: bool): (n: nat)
    decreases cmd
  {
    match cmd
    case Command(_, _, arguments) => TakesArguments(arguments, oneGroup) + 1
    case Alias(_, commands) => Takes(commands, oneGroup)
  }

  function TakesArguments(arguments: seq<Braces>, oneGroup: bool): nat
    decreases arguments
  {
    if |arguments| == 0 then 0
    else TakesArguments(arguments[..|arguments| - 1], oneGroup) + Takes(arguments[|arguments| - 1].commands, oneGroup)
  }

  /** One for the result, and two for every line. */
  function Takes(cmds: seq<Parsed>, oneGroup: bool): nat
    decreases cmds, 1
  {
    if |cmds| == 0 then 1 else TakesTo(cmds, oneGroup) + 1
  }

  /** Up to the last command, before its line is moved. */
  function TakesTo(cmds: seq<Parsed>, oneGroup: bool): nat
    decreases cmds, 0
  {
    if |cmds| == 0 then 1
    else TakesTo(cmds[..|cmds| - 1], oneGroup) + LineTakes(cmds, oneGroup) + TakesOne(cmds[|cmds| - 1], oneGroup)
  }

  /** One number for the first line, and two for starting another one. */
  function LineTakes(cmds: seq<Parsed>, oneGroup: bool): nat
    requires |cmds| > 0
  {
    if |cmds| == 1 then 1 else if StartsLine(cmds, oneGroup) then 2 else 0
  }

  // ----- groups and lines -----

  /** Two commands have the same group exactly if they have the same line number. */
  ghost predicate GroupsAreLines(gs: seq<nat>, ns: seq<nat>) {
    |gs| == |ns| && forall i, j :: 0 <= i < |gs| && 0 <= j < |gs| ==> (gs[i] == gs[j] <==> ns[i] == ns[j])
  }

  /** The groups of the finished lines, and of the commands of the line number n that are in hand. */
  ghost predicate Building(low: nat, gs: seq<nat>, count: nat, g: nat, ns: seq<nat>, n: nat, next: nat) {
    && |ns| == |gs| + count && GroupsAreLines(gs, ns[..|gs|]) && low <= g < next
    && (forall i :: 0 <= i < |gs| ==> ns[i] < n && gs[i] != g && low <= gs[i] < next)
    && (forall i :: |gs| <= i < |ns| ==> ns[i] == n)
  }

  lemma BuildingStarts(low: nat, g: nat)
    requires low <= g
    ensures Building(low, [], 0, g, [], 0, g + 1)
  {
  }

  lemma BuildingGoesOn(low: nat, gs: seq<nat>, count: nat, g: nat, ns: seq<nat>, n: nat, next: nat, more: nat,
                       later: nat)
    requires Building(low, gs, count, g, ns, n, next) && next <= later
    ensures Building(low, gs, count + more, g, ns + Constant(more, n), n, later)
  {
    assert (ns + Constant(more, n))[..|gs|] == ns[..|gs|];
  }

  lemma LineEnds(low: nat, gs: seq<nat>, count: nat, g: nat, ns: seq<nat>, n: nat, next: nat)
    requires Building(low, gs, count, g, ns, n, next)
    ensures GroupsAreLines(gs + Constant(count, g), ns)
    ensures forall x :: x in gs + Constant(count, g) ==> low <= x
    ensures Building(low, gs + Constant(count, g), 0, next + 1, ns, n + 1, next + 2)
  {
    var hs := gs + Constant(count, g);
    forall i, j | 0 <= i < |hs| && 0 <= j < |hs| ensures hs[i] == hs[j] <==> ns[i] == ns[j] {
      assert i < |gs| ==> ns[..|gs|][i] == ns[i];
      assert j < |gs| ==> ns[..|gs|][j] == ns[j];
    }
    assert ns[..|hs|] == ns;
  }

  /** How far building has come after some commands, from the first number on. */
  ghost predicate Progress(gs: seq<nat>, count: nat, g: nat, cmds: seq<Parsed>, oneGroup: bool, start: nat, next: nat) {
    var n := start + TakesTo(cmds, oneGroup);
    next == n % UINT_RANGE
    && (n <= UINT_RANGE ==> Building(start, gs, count, g, LineNumbers(cmds, oneGroup), LineNumber(cmds, oneGroup), n))
  }

  lemma Wraps(n: nat, k: nat, more: nat)
    ensures ((n % UINT_RANGE + k) % UINT_RANGE + more) % UINT_RANGE == (n + k + more) % UINT_RANGE
    ensures n + k < UINT_RANGE ==> (n % UINT_RANGE + k) % UINT_RANGE == n + k
  {
  }

  lemma OneLine(cmds: seq<Parsed>, oneGroup: bool)
    requires |cmds| == 1
    ensures TakesTo(cmds, oneGroup) == 2 + TakesOne(cmds[0], oneGroup) && LineNumber(cmds, oneGroup) == 0
    ensures LineNumbers(cmds, oneGroup) == Constant(|FlatOne(cmds[0])|, 0)
  {
    assert TakesTo(cmds[..0], oneGroup) == 1 && LineNumbers(cmds[..0], oneGroup) == [];
  }

  lemma FirstLine(cmds: seq<Parsed>, oneGroup: bool, start: nat, g: nat, n: nat)
    requires |cmds| == 1 && g == (start + 1) % UINT_RANGE && n == (g + 1) % UINT_RANGE
    ensures Progress([], |FlatOne(cmds[0])|, g, cmds, oneGroup, start, (n + TakesOne(cmds[0], oneGroup)) % UINT_RANGE)
  {
    hide TakesOne, TakesTo, FlatOne, Building, LineNumber, LineNumbers, Constant;
    var m, more := |FlatOne(cmds[0])|, TakesOne(cmds[0], oneGroup);
    OneLine(cmds, oneGroup);
    Wraps(start + 1, 1, more);
    Wraps(start, 1, 0);
    if start + 2 + more <= UINT_RANGE {
      BuildingStarts(start, g);
      BuildingGoesOn(start, [], 0, g, [], 0, g + 1, m, start + 2 + more);
      assert [] + Constant(m, 0) == Constant(m, 0);
    }
  }

  lemma MoreOfLine(cmds: seq<Parsed>, oneGroup: bool)
    requires |cmds| > 1 && !StartsLine(cmds, oneGroup)
    ensures var init, cmd := cmds[..|cmds| - 1], cmds[|cmds| - 1];
      && TakesTo(cmds, oneGroup) == TakesTo(init, oneGroup) + TakesOne(cmd, oneGroup)
      && LineNumber(cmds, oneGroup) == LineNumber(init, oneGroup)
      && LineNumbers(cmds, oneGroup)
        == LineNumbers(init, oneGroup) + Constant(|FlatOne(cmd)|, LineNumber(cmds, oneGroup))
  {
  }

  lemma SameLine(gs: seq<nat>, count: nat, g: nat, cmds: seq<Parsed>, oneGroup: bool, start: nat, next: nat)
    requires |cmds| > 1 && !StartsLine(cmds, oneGroup)
    requires Progress(gs, count, g, cmds[..|cmds| - 1], oneGroup, start, next)
    ensures var cmd := cmds[|cmds| - 1];
      Progress(gs, count + |FlatOne(cmd)|, g, cmds, oneGroup, start, (next + TakesOne(cmd, oneGroup)) % UINT_RANGE)
  {
    hide TakesOne, TakesTo, FlatOne, Building, LineNumber, LineNumbers, StartsLine, Constant;
    var init, m := cmds[..|cmds| - 1], |FlatOne(cmds[|cmds| - 1])|;
    var n, later := start + TakesTo(init, oneGroup), start + TakesTo(cmds, oneGroup);
    MoreOfLine(cmds, oneGroup);
    Wraps(n, TakesOne(cmds[|cmds| - 1], oneGroup), 0);
    if later <= UINT_RANGE {
      BuildingGoesOn(start, gs, count, g, LineNumbers(init, oneGroup), LineNumber(init, oneGroup), n, m, later);
    }
  }

  lemma OneMoreLine(cmds: seq<Parsed>, oneGroup: bool)
    requires |cmds| > 1 && StartsLine(cmds, oneGroup)
    ensures var init, cmd := cmds[..|cmds| - 1], cmds[|cmds| - 1];
      && TakesTo(cmds, oneGroup) == TakesTo(init, oneGroup) + 2 + TakesOne(cmd, oneGroup)
      && LineNumber(cmds, oneGroup) == LineNumber(init, oneGroup) + 1
      && LineNumbers(cmds, oneGroup)
        == LineNumbers(init, oneGroup) + Constant(|FlatOne(cmd)|, LineNumber(cmds, oneGroup))
  {
  }

  lemma NextLine(gs: seq<nat>, count: nat, g: nat, cmds: seq<Parsed>, oneGroup: bool, start: nat, next: nat, h: nat,
                 after: nat)
    requires |cmds| > 1 && StartsLine(cmds, oneGroup) && h == (next + 1) % UINT_RANGE
    requires after == (next + 2) % UINT_RANGE
    requires Progress(gs, count, g, cmds[..|cmds| - 1], oneGroup, start, next)
    ensures var cmd := cmds[|cmds| - 1];
      Progress(gs + Constant(count, g), |FlatOne(cmd)|, h, cmds, oneGroup, start,
        (after + TakesOne(cmd, oneGroup)) % UINT_RANGE)
  {
    hide TakesOne, TakesTo, FlatOne, Building, LineNumber, LineNumbers, StartsLine, Constant;
    var init, m := cmds[..|cmds| - 1], |FlatOne(cmds[|cmds| - 1])|;
    var n, later := start + TakesTo(init, oneGroup), start + TakesTo(cmds, oneGroup);
    OneMoreLine(cmds, oneGroup);
    Wraps(n, 1, 0);
    Wraps(n, 2, TakesOne(cmds[|cmds| - 1], oneGroup));
    if later <= UINT_RANGE {
      LineEnds(start, gs, count, g, LineNumbers(init, oneGroup), LineNumber(init, oneGroup), n);
      BuildingGoesOn(start, gs + Constant(count, g), 0, n + 1,
        LineNumbers(init, oneGroup), LineNumber(cmds, oneGroup), n + 2, m, later);
    }
  }

  /** How far building has come after one more command, on the same line or on a new one. */
  lemma OneMore(cmds: seq<Parsed>, oneGroup: bool, start: nat, gs: seq<nat>, count: nat, g: nat, was: nat,
      gs1: seq<nat>, count1: nat, h: nat, after: nat)
    requires |cmds| > 0
    requires |cmds| == 1 ==>
      was == (start + 1) % UINT_RANGE && h == was && after == (was + 1) % UINT_RANGE && gs1 == [] && count1 == 0
    requires |cmds| > 1 ==> Progress(gs, count, g, cmds[..|cmds| - 1], oneGroup, start, was)
    requires |cmds| > 1 && StartsLine(cmds, oneGroup) ==>
      gs1 == gs + Constant(count, g) && count1 == 0 && h == (was + 1) % UINT_RANGE && after == (was + 2) % UINT_RANGE
    requires |cmds| > 1 && !StartsLine(cmds, oneGroup) ==> gs1 == gs && count1 == count && h == g && after == was
    ensures var cmd := cmds[|cmds| - 1];
      Progress(gs1, count1 + |FlatOne(cmd)|, h, cmds, oneGroup, start, (after + TakesOne(cmd, oneGroup)) % UINT_RANGE)
  {
    hide Progress;
    if |cmds| == 1 {
      FirstLine(cmds, oneGroup, start, h, after);
    } else if StartsLine(cmds, oneGroup) {
      NextLine(gs, count, g, cmds, oneGroup, start, was, h, after);
    } else {
      SameLine(gs, count, g, cmds, oneGroup, start, was);
    }
  }

  lemma Finished(gs: seq<nat>, count: nat, g: nat, cmds: seq<Parsed>, oneGroup: bool, start: nat, next: nat)
    requires |cmds| > 0 && Progress(gs, count, g, cmds, oneGroup, start, next)
    ensures (next + 1) % UINT_RANGE == (start + Takes(cmds, oneGroup)) % UINT_RANGE
    ensures start + Takes(cmds, oneGroup) <= UINT_RANGE ==>
      && GroupsAreLines(gs + Constant(count, g), LineNumbers(cmds, oneGroup))
      && forall x :: x in gs + Constant(count, g) ==> start <= x
  {
    hide Building, GroupsAreLines, LineNumbers, LineNumber, TakesTo;
    if start + Takes(cmds, oneGroup) <= UINT_RANGE {
      LineEnds(start, gs, count, g,
        LineNumbers(cmds, oneGroup), LineNumber(cmds, oneGroup), start + TakesTo(cmds, oneGroup));
    }
  }

  lemma {:induction false} LinesInOrder(cmds: seq<Parsed>, oneGroup: bool, i: nat, j: nat)
    requires i <= j < |LineNumbers(cmds, oneGroup)|
    ensures LineNumbers(cmds, oneGroup)[i] <= LineNumbers(cmds, oneGroup)[j]
    decreases |cmds|
  {
    hide FlatOne;
    var init := cmds[..|cmds| - 1];
    if j < |LineNumbers(init, oneGroup)| {
      LinesInOrder(init, oneGroup, i, j);
    }
  }

  /** The later commands of the same line. */
  ghost function LaterOnLine(ns: seq<nat>, i: nat): set<nat>
    requires i < |ns|
  {
    set j: nat | i < j < |ns| && ns[j] == ns[i]
  }

  /** An error in a list with these groups cancels the later commands of the same line and no others,
      and it does the same in every copy. */
  lemma LinesFailTogether(gs: seq<nat>, cmds: seq<Parsed>, oneGroup: bool, start: nat, next: nat)
    requires GroupsAreLines(gs, LineNumbers(cmds, oneGroup)) && forall x :: x in gs ==> 0 < x
    requires 0 < next && next + CopyTakes(gs, start) <= UINT_RANGE
    ensures |CopyGroups(gs, start, next).out| == |gs|
    ensures forall i: nat :: i < |gs| ==>
      Cancelled(gs, i) == Cancelled(CopyGroups(gs, start, next).out, i) == LaterOnLine(LineNumbers(cmds, oneGroup), i)
  {
    hide LineNumbers, CopyGroups, CopyTakes;
    var ns := LineNumbers(cmds, oneGroup);
    forall i, j, k | 0 <= i < j < k < |gs| && gs[i] == gs[k] ensures gs[j] == gs[i] {
      LinesInOrder(cmds, oneGroup, i, j);
      LinesInOrder(cmds, oneGroup, j, k);
    }
    assert forall k :: 0 <= k < |gs| ==> gs[k] in gs;
    CopyCancelsAlike(gs, start, next);
    forall i: nat | i < |gs| ensures Cancelled(gs, i) == LaterOnLine(ns, i) {
      assert gs[i] in gs;
    }
  }

  lemma NothingBuilt(oneGroup: bool)
    ensures GroupsAreLines([], LineNumbers([], oneGroup)) && Flat([]) == [] && Takes([], oneGroup) == 1
  {
  }

  // ----- building -----

  /** The commands of different lists are different. */
  ghost predicate Apart(a: CmdList, b: CmdList)
    reads a, b
  {
    a != b && forall c :: c in a.list ==> c !in b.list
  }

  /** Build the list of one command, or of the commands of an alias. */
  method BuildCommand(numbers: GroupCounter, cmd: Parsed, oneGroup: bool) returns (l: CmdList)
    requires numbers.Valid()
    modifies numbers
    ensures numbers.Valid() && fresh(l) && fresh(l.list) && l.references == 1 && l.Entries() == FlatOne(cmd)
    ensures numbers.next == (old(numbers.next) + TakesOne(cmd, oneGroup)) % UINT_RANGE
    decreases cmd, 0
  {
    hide Flat, Takes, TakesTo, TakesArguments, LineNumbers, GroupsAreLines;
    match cmd
    case Alias(_, commands) =>
      l := BuildCommands(numbers, commands, oneGroup);
    case Command(_, entry, arguments) =>
      Wraps(numbers.next + TakesArguments(arguments, oneGroup), 1, 0);
      BuildArguments(numbers, arguments, oneGroup);
      l := numbers.NewList();
      var add := new Cmd(entry);
      l.Append(add);
  }

  lemma ArgumentsTake(arguments: seq<Braces>, k: nat, oneGroup: bool)
    ensures TakesArguments(arguments[..0], oneGroup) == 0
    ensures k < |arguments| ==>
      TakesArguments(arguments[..k + 1], oneGroup)
        == TakesArguments(arguments[..k], oneGroup) + Takes(arguments[k].commands, oneGroup)
  {
    hide Takes;
    assert k < |arguments| ==> arguments[..k + 1][..k] == arguments[..k];
  }

  /** Build the lists of the arguments. They belong to the new command, and are not looked at here. */
  method BuildArguments(numbers: GroupCounter, arguments: seq<Braces>, oneGroup: bool)
    requires numbers.Valid()
    modifies numbers
    ensures numbers.Valid() && numbers.next == (old(numbers.next) + TakesArguments(arguments, oneGroup)) % UINT_RANGE
    decreases arguments, 0
  {
    hide TakesArguments, Takes, TakesTo, TakesOne, Flat, LineNumbers, GroupsAreLines;
    var k := 0;
    ArgumentsTake(arguments, 0, oneGroup);
    while k < |arguments|
      invariant 0 <= k <= |arguments| && numbers.Valid()
      invariant numbers.next == (old(numbers.next) + TakesArguments(arguments[..k], oneGroup)) % UINT_RANGE
    {
      ArgumentsTake(arguments, k, oneGroup);
      Wraps(old(numbers.next) + TakesArguments(arguments[..k], oneGroup), Takes(arguments[k].commands, oneGroup), 0);
      var _ := BuildCommands(numbers, arguments[k].commands, oneGroup);
      k := k + 1;
    }
    assert arguments[..k] == arguments;
  }

  /** The commands in hand: those of a result and of a current list, whose groups are its own. */
  ghost predicate InHand(result: CmdList, current: CmdList?)
    reads result, current, if current == null then [] else current.list
  {
    if current == null then result.list == []
    else Apart(current, result) && current.Groups() == Constant(|current.list|, current.group)
  }

  /** Start a line unless it goes on: the current list is moved to the result and freed, and there is a
      new one. */
  method StartLine(numbers: GroupCounter, result: CmdList, current: CmdList?, starts: bool) returns (c: CmdList)
    requires numbers.Valid() && InHand(result, current)
    modifies numbers, result`list, result`group, (if current == null then {} else {current})`list
    ensures numbers.Valid() && InHand(result, c)
    ensures result.Entries() + c.Entries()
      == if current == null then [] else old(result.Entries()) + old(current.Entries())
    ensures current != null && !starts ==>
      (c == current && c.list == old(current.list) && c.group == old(current.group)
      && result.list == old(result.list) && result.Groups() == old(result.Groups())
      && numbers.next == old(numbers.next))
    ensures c != result && (current == null || starts ==> fresh(c) && c.list == [])
    ensures forall i :: 0 <= i < |result.list| ==>
      result.list[i] in old(result.list) || (current != null && result.list[i] in old(current.list))
    ensures current == null ==>
      (result.list == [] == old(result.list)
      && c.group == old(numbers.next) && numbers.next == (old(numbers.next) + 1) % UINT_RANGE)
    ensures current != null && starts ==>
      (result.list == old(result.list) + old(current.list)
      && result.Groups() == old(result.Groups()) + Constant(|old(current.list)|, old(current.group))
      && c.group == (old(numbers.next) + 1) % UINT_RANGE && numbers.next == (old(numbers.next) + 2) % UINT_RANGE)
  {
    var now := current;
    if starts {
      if now != null {
        numbers.Move(result, now);
      }
      now := numbers.NewList();
    }
    if now == null {
      now := numbers.NewList();
    }
    c := now;
  }

  /** Build one more command. */
  method AddCommand(numbers: GroupCounter, result: CmdList, c: CmdList, cmd: Parsed, oneGroup: bool)
    requires numbers.Valid() && InHand(result, c)
    modifies numbers, c`list
    ensures numbers.Valid() && InHand(result, c)
    ensures numbers.next == (old(numbers.next) + TakesOne(cmd, oneGroup)) % UINT_RANGE
    ensures |c.list| == |old(c.list)| + |FlatOne(cmd)| && c.Entries() == old(c.Entries()) + FlatOne(cmd)
    ensures result.Entries() == old(result.Entries()) && result.Groups() == old(result.Groups())
    ensures forall i :: 0 <= i < |c.list| ==> c.list[i] in old(c.list) || fresh(c.list[i])
    decreases cmd, 1
  {
    var l := BuildCommand(numbers, cmd, oneGroup);
    c.AppendAll(l);
  }

  lemma FlatMore(cmds: seq<Parsed>, k: nat)
    requires k < |cmds|
    ensures Flat(cmds[..k + 1]) == Flat(cmds[..k]) + FlatOne(cmds[k]) && (k == 0 ==> Flat(cmds[..k]) == [])
  {
    hide FlatOne;
    assert cmds[..k + 1][..k] == cmds[..k];
  }

  /** The same as OneMore, after the first k commands of several. */
  lemma OneMoreAt(cmds: seq<Parsed>, k: nat, oneGroup: bool, start: nat, gs: seq<nat>, count: nat, g: nat, was: nat,
      gs1: seq<nat>, count1: nat, h: nat, after: nat)
    requires k < |cmds|
    requires k == 0 ==>
      was == (start + 1) % UINT_RANGE && h == was && after == (was + 1) % UINT_RANGE && gs1 == [] && count1 == 0
    requires k > 0 ==> Progress(gs, count, g, cmds[..k], oneGroup, start, was)
    requires var starts := !oneGroup && cmds[k].line != cmds[if k > 0 then k - 1 else 0].line;
      && (k > 0 && starts ==>
        gs1 == gs + Constant(count, g) && count1 == 0 && h == (was + 1) % UINT_RANGE && after == (was + 2) % UINT_RANGE)
      && (k > 0 && !starts ==> gs1 == gs && count1 == count && h == g && after == was)
    ensures Progress(gs1, count1 + |FlatOne(cmds[k])|, h, cmds[..k + 1], oneGroup, start,
      (after + TakesOne(cmds[k], oneGroup)) % UINT_RANGE)
  {
    hide Progress, FlatOne, TakesOne, StartsLine;
    assert cmds[..k + 1][..k] == cmds[..k];
    StartsAt(cmds, k, oneGroup);
    OneMore(cmds[..k + 1], oneGroup, start, gs, count, g, was, gs1, count1, h, after);
  }

  lemma StartsAt(cmds: seq<Parsed>, k: nat, oneGroup: bool)
    requires k < |cmds|
    ensures k > 0 ==> (StartsLine(cmds[..k + 1], oneGroup) <==> !oneGroup && cmds[k].line != cmds[k - 1].line)
  {
  }

  /** One more command, after the first k. */
  method BuildNext(numbers: GroupCounter, result: CmdList, current: CmdList?, cmds: seq<Parsed>, k: nat, oneGroup: bool,
      line: nat, ghost start: nat) returns (c: CmdList)
    requires numbers.Valid() && InHand(result, current) && k < |cmds|
    requires if current == null then k == 0 && numbers.next == (start + 1) % UINT_RANGE
      else k > 0 && line == cmds[k - 1].line && result.Entries() + current.Entries() == Flat(cmds[..k])
    requires current != null ==>
      Progress(result.Groups(), |current.list|, current.group, cmds[..k], oneGroup, start, numbers.next)
    modifies numbers, result`list, result`group, (if current == null then {} else {current})`list
    ensures numbers.Valid() && InHand(result, c) && result.Entries() + c.Entries() == Flat(cmds[..k + 1])
    ensures Progress(result.Groups(), |c.list|, c.group, cmds[..k + 1], oneGroup, start, numbers.next)
    ensures c == current || fresh(c)
    ensures forall i :: 0 <= i < |result.list| ==>
      result.list[i] in old(result.list) || (current != null && result.list[i] in old(current.list))
    ensures forall i :: 0 <= i < |c.list| ==> fresh(c.list[i]) || (current != null && c.list[i] in old(current.list))
    decreases cmds, 1
  {
    hide TakesOne, FlatOne, Flat, Progress, Constant, InHand;
    ghost var gs, was := result.Groups(), numbers.next;
    ghost var count, g := if current == null then 0 else |current.list|, if current == null then 0 else current.group;
    FlatMore(cmds, k);
    c := StartLine(numbers, result, current, !oneGroup && cmds[k].line != line);
    assert result.Entries() + c.Entries() == Flat(cmds[..k]);
    ghost var gs1, count1, h, after := result.Groups(), |c.list|, c.group, numbers.next;
    assert k == 0 ==> gs1 == [];
    ghost var front, back := result.Entries(), c.Entries();
    AddCommand(numbers, result, c, cmds[k], oneGroup);
    assert front + back + FlatOne(cmds[k]) == front + (back + FlatOne(cmds[k]));
    OneMoreAt(cmds, k, oneGroup, start, gs, count, g, was, gs1, count1, h, after);
  }

  /** Build the list of several commands. Until the counter wraps, two commands of the list have the same
      group exactly if they come from the same line, or from the same alias on it. */
  method BuildCommands(numbers: GroupCounter, cmds: seq<Parsed>, oneGroup: bool) returns (result: CmdList)
    requires numbers.Valid()
    modifies numbers
    ensures numbers.Valid() && fresh(result) && fresh(result.list) && result.references == 1
    ensures result.Entries() == Flat(cmds)
    ensures numbers.next == (old(numbers.next) + Takes(cmds, oneGroup)) % UINT_RANGE
    ensures old(numbers.next) + Takes(cmds, oneGroup) <= UINT_RANGE ==>
      && GroupsAreLines(result.Groups(), LineNumbers(cmds, oneGroup))
      && forall x :: x in result.Groups() ==> old(numbers.next) <= x
    decreases cmds, 2
  {
    hide Progress, GroupsAreLines, LineNumbers, TakesTo, Takes, Flat, Constant;
    ghost var start := numbers.next;
    result := numbers.NewList();
    if |cmds| == 0 {
      NothingBuilt(oneGroup);
      assert result.Groups() == [] && cmds == [];
      return;
    }
    var line: nat := UINT_RANGE - 1;
    var current: CmdList? := null;
    var k := 0;
    while k < |cmds|
      invariant 0 <= k <= |cmds| && numbers.Valid() && fresh(result) && fresh(result.list) && result.references == 1
      invariant if current == null then k == 0 && numbers.next == (start + 1) % UINT_RANGE
        else k > 0 && line == cmds[k - 1].line && result.Entries() + current.Entries() == Flat(cmds[..k])
      invariant current != null ==> fresh(current) && fresh(current.list)
      invariant InHand(result, current)
      invariant current != null ==>
        Progress(result.Groups(), |current.list|, current.group, cmds[..k], oneGroup, start, numbers.next)
    {
      current := BuildNext(numbers, result, current, cmds, k, oneGroup, line, start);
      line := cmds[k].line;
      k := k + 1;
    }
    assert cmds[..k] == cmds;
    Finished(result.Groups(), |current.list|, current.group, cmds, oneGroup, start, numbers.next);
    numbers.Move(result, current);
  }
}
