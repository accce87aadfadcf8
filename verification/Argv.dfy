/** Argument vectors packed into a message: the strings one after the other, each with its terminator. */
module Argv {
  import opened Common

  const MAX_ARGC := 1000

  ghost predicate IsString(s: string) {
    NUL !in s
  }

  ghost predicate AreStrings(argv: seq<string>) {
    forall k :: 0 <= k < |argv| ==> IsString(argv[k])
  }

  function Packed(argv: seq<string>): string {
    if |argv| == 0 then "" else argv[0] + [NUL] + Packed(argv[1..])
  }

  /** For example, three strings, one of which is empty. */
  lemma PackedExample()
    ensures Packed(["ab", "", "c"]) == "ab\0\0c\0"
  {
    assert ["ab", "", "c"][1..] == ["", "c"] && ["", "c"][1..] == ["c"] && ["c"][1..] == [];
    assert Packed(["c"]) == "c\0" && Packed(["", "c"]) == "\0c\0";
  }

  /** How many terminators there are. */
  function Terminators(s: string): nat {
    if |s| == 0 then 0 else (if s[0] == NUL then 1 else 0) + Terminators(s[1..])
  }

  /** The bytes that unpacking works on. */
  function Terminated(s: string): (t: string)
    ensures |t| == |s|
  {
    if |s| == 0 then s else s[|s| - 1 := NUL]
  }

  lemma {:induction false} PackedAppend(a: seq<string>, b: seq<string>)
    ensures Packed(a + b) == Packed(a) + Packed(b)
  {
    if |a| == 0 {
      assert a + b == b;
    } else {
      PackedAppend(a[1..], b);
      var x, y, z := a[0] + [NUL], Packed(a[1..]), Packed(b);
      assert x + (y + z) == (x + y) + z;
      assert Packed(a + b) == x + Packed(a[1..] + b) by {
        assert (a + b)[1..] == a[1..] + b;
      }
    }
  }

  lemma {:induction false} TerminatorsAppend(s: string, t: string)
    ensures Terminators(s + t) == Terminators(s) + Terminators(t)
  {
    if |s| == 0 {
      assert s + t == t;
    } else {
      TerminatorsAppend(s[1..], t);
      assert (s + t)[1..] == s[1..] + t;
    }
  }

  lemma {:induction false} NoTerminators(s: string)
    requires IsString(s)
    ensures Terminators(s) == 0
  {
    if |s| > 0 {
      NoTerminators(s[1..]);
    }
  }

  lemma {:induction false} PackedTerminators(argv: seq<string>)
    requires AreStrings(argv)
    ensures Terminators(Packed(argv)) == |argv|
  {
    if |argv| > 0 {
      PackedTerminators(argv[1..]);
      NoTerminators(argv[0]);
      TerminatorsAppend(argv[0] + [NUL], Packed(argv[1..]));
      TerminatorsAppend(argv[0], [NUL]);
    }
  }

  /** As many strings as start a message are determined by it. */
  lemma {:induction false} PackedIsInjective(a: seq<string>, b: seq<string>, s: string)
    requires AreStrings(a) && AreStrings(b) && |a| == |b|
    requires Packed(a) <= s && Packed(b) <= s
    ensures a == b
  {
    if |a| > 0 {
      var x, y := a[0], b[0];
      assert s[|x|] == Packed(a)[|x|] == NUL && s[|y|] == Packed(b)[|y|] == NUL;
      assert forall k :: 0 <= k < |x| ==> s[k] == Packed(a)[k] == x[k] != NUL;
      assert forall k :: 0 <= k < |y| ==> s[k] == Packed(b)[k] == y[k] != NUL;
      assert |x| == |y|;
      assert x == y;
      var n := |x| + 1;
      assert Packed(a)[n..] == Packed(a[1..]) && Packed(b)[n..] == Packed(b[1..]);
      PackedIsInjective(a[1..], b[1..], s[n..]);
      assert a == [x] + a[1..] && b == [y] + b[1..];
    }
  }

  lemma {:induction false} LastIsTerminator(argv: seq<string>)
    requires |argv| > 0
    ensures |Packed(argv)| > 0 && Packed(argv)[|Packed(argv)| - 1] == NUL
  {
    if |argv| > 1 {
      LastIsTerminator(argv[1..]);
    }
  }

  lemma TerminatedPrefix(p: string, s: string)
    requires p <= s && |p| > 0 && p[|p| - 1] == NUL
    ensures p <= Terminated(s)
  {
  }

  /** Unpacking a message that starts with packed strings finds enough terminators, and the only
      strings it can find are those. */
  lemma RoundTrip(argv: seq<string>, s: string)
    requires AreStrings(argv) && |argv| > 0 && Packed(argv) <= s
    ensures Packed(argv) <= Terminated(s) && Terminators(Terminated(s)) >= |argv|
    ensures forall out :: AreStrings(out) && |out| == |argv| && Packed(out) <= Terminated(s) ==> out == argv
  {
    hide Packed, Terminators, Terminated, AreStrings;
    var p, t := Packed(argv), Terminated(s);
    LastIsTerminator(argv);
    TerminatedPrefix(p, s);
    assert t == p + t[|p|..];
    TerminatorsAppend(p, t[|p|..]);
    PackedTerminators(argv);
    forall out | AreStrings(out) && |out| == |argv| && Packed(out) <= t ensures out == argv {
      PackedIsInjective(argv, out, t);
    }
  }

  /** A sequence with a part overwritten. */
  function Written<T>(s: seq<T>, at: nat, w: seq<T>): (r: seq<T>)
    requires at + |w| <= |s|
    ensures |r| == |s|
  {
    s[..at] + w + s[at + |w|..]
  }

  lemma WrittenMore<T>(s: seq<T>, at: nat, w: seq<T>, c: T)
    requires at + |w| < |s|
    ensures Written(s, at, w)[at + |w| := c] == Written(s, at, w + [c])
  {
  }

  lemma WrittenBehind<T>(s: seq<T>, at: nat, w: seq<T>, x: seq<T>)
    requires at + |w| + |x| <= |s|
    ensures Written(Written(s, at, w), at + |w|, x) == Written(s, at, w + x)
  {
  }

  lemma WrittenPart<T>(s: seq<T>, at: nat, w: seq<T>, start: nat, end: nat)
    requires start <= at && at + |w| <= end <= |s|
    ensures var r := Written(s, at, w); r[..start] == s[..start] && r[end..] == s[end..] && r[at..at + |w|] == w
  {
  }

  lemma NothingWritten<T>(s: seq<T>, at: nat)
    requires at <= |s|
    ensures Written(s, at, []) == s
  {
  }

  /** As much of a string as there is room for, and its terminator. */
  function Copied(src: string, size: nat): string
    requires size > 0
  {
    (if |src| < size then src else src[..size - 1]) + [NUL]
  }

  /** Copy a string and its terminator, as much as there is room for. */
  method Strlcpy(buf: array<char>, at: nat, src: string, size: nat) returns (n: nat)
    requires at + size <= buf.Length
    modifies buf
    ensures n == |src|
    ensures buf[..] == if size == 0 then old(buf[..]) else Written(old(buf[..]), at, Copied(src, size))
  {
    hide Written;
    ghost var before := buf[..];
    n := |src|;
    if size == 0 {
      return;
    }
    var k := 0;
    NothingWritten(before, at);
    while k < |src| && k + 1 < size
      invariant 0 <= k <= |src| && k < size
      invariant buf[..] == Written(before, at, src[..k])
    {
      ghost var now := buf[..];
      WrittenMore(before, at, src[..k], src[k]);
      assert src[..k + 1] == src[..k] + [src[k]];
      buf[at + k] := src[k];
      assert buf[..] == now[at + k := src[k]];
      k := k + 1;
    }
    ghost var now := buf[..];
    WrittenMore(before, at, src[..k], NUL);
    buf[at + k] := NUL;
    assert buf[..] == now[at + k := NUL];
    assert |src| < size ==> src[..k] == src;
  }

  /** Pack argument strings into a part of a buffer, if they fit. */
  method Pack(argv: seq<string>, buf: array<char>, start: nat, size: nat) returns (r: int)
    requires AreStrings(argv) && start + size <= buf.Length
    requires |argv| > 0 ==> size > 0
    modifies buf
    ensures r == if |Packed(argv)| <= size then 0 else -1
    ensures buf[..start] == old(buf[..start]) && buf[start + size..] == old(buf[start + size..])
    ensures r == 0 ==> buf[start..start + |Packed(argv)|] == Packed(argv)
  {
    hide Written, Packed, AreStrings;
    NothingPacked();
    if |argv| == 0 {
      return 0;
    }
    ghost var was := buf[..];
    WrittenPart(was, start, [NUL], start, start + size);
    WrittenMore(was, start, [], NUL);
    NothingWritten(was, start);
    assert [] + [NUL] == [NUL];
    buf[start] := NUL;
    assert buf[..] == was[start := NUL] == Written(was, start, [NUL]);
    ghost var before := buf[..];
    NothingWritten(before, start);
    var at, len, i := start, size, 0;
    while i < |argv|
      invariant 0 <= i <= |argv| && 0 <= len && at == start + |Packed(argv[..i])| && at + len == start + size
      invariant buf[..] == Written(before, start, Packed(argv[..i]))
    {
      ghost var now := buf[..];
      PackedUpTo(argv, i);
      var n := Strlcpy(buf, at, argv[i], len);
      if n >= len {
        WrittenPart(before, start, Packed(argv[..i]), start, start + size);
        if len > 0 {
          WrittenPart(now, at, Copied(argv[i], len), start, start + size);
        }
        return -1;
      }
      WrittenBehind(before, start, Packed(argv[..i]), argv[i] + [NUL]);
      at, len := at + n + 1, len - (n + 1);
      i := i + 1;
    }
    assert argv[..i] == argv;
    WrittenPart(before, start, Packed(argv), start, start + size);
    return 0;
  }

  lemma PackedUpTo(argv: seq<string>, i: nat)
    requires i < |argv|
    ensures Packed(argv[..i + 1]) == Packed(argv[..i]) + (argv[i] + [NUL])
    ensures |Packed(argv[..i + 1])| <= |Packed(argv)|
  {
    hide Packed;
    assert argv[..i + 1] == argv[..i] + [argv[i]];
    PackedAppend(argv[..i], [argv[i]]);
    PackedOne(argv[i]);
    PackedAppend(argv[..i + 1], argv[i + 1..]);
    assert argv == argv[..i + 1] + argv[i + 1..];
  }

  lemma PackedOne(s: string)
    ensures Packed([s]) == s + [NUL]
  {
  }

  /** Where the string that starts at a position ends. */
  method Strlen(buf: array<char>, at: nat, ghost end: nat) returns (n: nat)
    requires at <= end < buf.Length && buf[end] == NUL
    ensures at + n <= end && IsString(buf[at..at + n]) && buf[at + n] == NUL
  {
    n := 0;
    while buf[at + n] != NUL
      invariant at + n <= end && NUL !in buf[at..at + n]
      decreases end - (at + n)
    {
      n := n + 1;
    }
  }

  /** Copy one string after the other out of a part of a buffer that ends with a terminator. */
  method UnpackStrings(buf: array<char>, start: nat, size: nat, argc: nat) returns (r: int, argv: seq<string>)
    requires 0 < size && start + size <= buf.Length && buf[start + size - 1] == NUL
    ensures r == if argc <= Terminators(buf[start..start + size]) then 0 else -1
    ensures r == 0 ==> |argv| == argc && AreStrings(argv) && Packed(argv) <= buf[start..start + size]
  {
    hide Terminators, Packed;
    ghost var t := buf[..][start..start + size];
    argv := [];
    assert Packed([]) == "" by { NothingPacked(); }
    var at, len, i := start, size, 0;
    while i < argc
      invariant 0 <= i <= argc && |argv| == i && AreStrings(argv)
      invariant 0 <= len && at + len == start + size && at == start + |Packed(argv)|
      invariant Packed(argv) <= t
    {
      if len == 0 {
        PackedTerminators(argv);
        assert Packed(argv) == t;
        return -1, [];
      }
      var n := Strlen(buf, at, start + size - 1);
      ghost var p := |Packed(argv)|;
      SubSlice(buf[..], start, start + size, p, p + n + 1);
      assert buf[at..at + n] + [NUL] == buf[..][at..at + n + 1];
      PackedOneMore(argv, buf[at..at + n], t);
      argv := argv + [buf[at..at + n]];
      at, len := at + n + 1, len - (n + 1);
      i := i + 1;
    }
    PackedTerminators(argv);
    TerminatorsAppend(Packed(argv), t[|Packed(argv)|..]);
    assert t == Packed(argv) + t[|Packed(argv)|..];
    return 0, argv;
  }

  lemma SubSlice<T>(s: seq<T>, a: nat, b: nat, p: nat, q: nat)
    requires a <= b <= |s| && p <= q <= b - a
    ensures s[a..b][p..q] == s[a + p..a + q]
  {
    forall k | 0 <= k < q - p ensures s[a..b][p..q][k] == s[a + p..a + q][k] {
    }
  }

  lemma NothingPacked()
    ensures Packed([]) == ""
  {
  }

  lemma PackedOneMore(argv: seq<string>, more: string, t: string)
    requires Packed(argv) <= t && |Packed(argv)| + |more| < |t|
    requires more + [NUL] == t[|Packed(argv)|..|Packed(argv)| + |more| + 1]
    ensures Packed(argv + [more]) <= t && |Packed(argv + [more])| == |Packed(argv)| + |more| + 1
  {
    PackedAppend(argv, [more]);
    assert Packed([more]) == more + [NUL];
  }

  /** Unpack strings from a part of a buffer, whose last byte is made a terminator. */
  method Unpack(buf: array<char>, start: nat, size: nat, argc: int) returns (r: int, argv: seq<string>)
    requires start + size <= buf.Length && (argc > 0 ==> size > 0)
    modifies buf
    ensures var t := Terminated(old(buf[start..start + size]));
      && r == (if 0 <= argc <= 1000 && (argc == 0 || argc <= Terminators(t)) then 0 else -1)
      && (r == 0 ==> |argv| == argc && AreStrings(argv) && Packed(argv) <= t)
      && buf[..] == old(buf[..start])
        + (if 0 < argc <= 1000 then t else old(buf[start..start + size]))
        + old(buf[start + size..])
  {
    hide Terminators, Packed;
    if argc == 0 {
      NothingPacked();
      return 0, [];
    }
    if argc < 0 || argc > MAX_ARGC {
      return -1, [];
    }
    ghost var before := buf[start..start + size];
    buf[start + size - 1] := NUL;
    assert buf[start..start + size] == Terminated(before);
    r, argv := UnpackStrings(buf, start, size, argc);
  }
}
