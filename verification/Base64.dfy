/** The base64 codec of RFC 1521, section 5.2: an encoder and a decoder that work in a buffer of the
    caller's, both proved against the definition by 24-bit groups. */
module Base64 {
  import opened Common

  type byte = b: int | 0 <= b < 256
  type sextet = v: int | 0 <= v < 64

  const PAD := '='

  // ----- the encoding -----

  /** The base64 alphabet: the character of a digit. */
  function Digit(v: sextet): (c: char) {
    if v < 26 then 'A' + v as char
    else if v < 52 then 'a' + (v - 26) as char
    else if v < 62 then '0' + (v - 52) as char
    else if v == 62 then '+' else '/'
  }

  predicate IsDigit(c: char) {
    'A' <= c <= 'Z' || 'a' <= c <= 'z' || '0' <= c <= '9' || c == '+' || c == '/'
  }

  /** The place of a character in the alphabet. */
  function Value(c: char): (v: sextet)
    requires IsDigit(c)
    ensures Digit(v) == c
  {
    if 'A' <= c <= 'Z' then c as int - 'A' as int
    else if 'a' <= c <= 'z' then c as int - 'a' as int + 26
    else if '0' <= c <= '9' then c as int - '0' as int + 52
    else if c == '+' then 62 else 63
  }

  lemma DigitIsInjective(v: sextet)
    ensures IsDigit(Digit(v)) && Value(Digit(v)) == v && Digit(v) != PAD && Digit(v) != NUL
  {
  }

  const UPPER := "ABCDEFGHIJKLMNOPQRSTUVWXYZ"
  const LOWER := "abcdefghijklmnopqrstuvwxyz"
  const OTHERS := "0123456789+/"

  /** The alphabet of the standard, in its order. */
  const ALPHABET: string := UPPER + LOWER + OTHERS

  /** The character of a digit is the one at its place in the alphabet. */
  lemma DigitsAreTheAlphabet(v: sextet)
    ensures |ALPHABET| == 64 && Digit(v) == ALPHABET[v]
  {
    assert v < 26 ==> UPPER[v] == 'A' + v as char;
    assert 26 <= v < 52 ==> LOWER[v - 26] == 'a' + (v - 26) as char;
    assert 52 <= v < 62 ==> OTHERS[v - 52] == '0' + (v - 52) as char;
  }

  /** A character is a digit exactly if it is in the alphabet, and its value is its place there. */
  lemma ValuesArePlaces(c: char)
    ensures IsDigit(c) <==> c in ALPHABET
    ensures IsDigit(c) ==> Value(c) == IndexOf(ALPHABET, c)
  {
    hide IndexOf;
    if IsDigit(c) {
      DigitsAreTheAlphabet(Value(c));
      var k := IndexOf(ALPHABET, c);
      DigitsAreTheAlphabet(k);
      DigitIsInjective(k);
    } else if k :| 0 <= k < |ALPHABET| && ALPHABET[k] == c {
      DigitsAreTheAlphabet(k);
      DigitIsInjective(k);
    }
  }

  /** The four digits of three bytes, read as one 24-bit number. */
  function Quad(a: byte, b: byte, c: byte): (s: string)
    ensures |s| == 4
  {
    var n := a * 0x10000 + b * 0x100 + c;
    [Digit(n / 0x40000), Digit(n / 0x1000 % 64), Digit(n / 64 % 64), Digit(n % 64)]
  }

  /** A last group of one or two bytes is filled up with zeros and its unused digits are padding. */
  function Encode(d: seq<byte>): (s: string)
    ensures |s| == EncodedLength(|d|)
  {
    if |d| == 0 then ""
    else if |d| == 1 then Quad(d[0], 0, 0)[..2] + [PAD, PAD]
    else if |d| == 2 then Quad(d[0], d[1], 0)[..3] + [PAD]
    else
      GroupLength(|d| - 3);
      Quad(d[0], d[1], d[2]) + Encode(d[3..])
  }

  lemma GroupLength(n: nat)
    ensures EncodedLength(n + 3) == EncodedLength(n) + 4
  {
  }

  function EncodedLength(n: nat): nat {
    (n + 2) / 3 * 4
  }

  /** The digits and the padding of an encoding of n bytes, whatever the digits are. */
  ghost predicate Shaped(s: string, n: nat) {
    if n == 0 then s == ""
    else if n == 1 then |s| == 4 && IsDigit(s[0]) && IsDigit(s[1]) && s[2] == s[3] == PAD
    else if n == 2 then |s| == 4 && IsDigit(s[0]) && IsDigit(s[1]) && IsDigit(s[2]) && s[3] == PAD
    else |s| >= 4 && IsDigit(s[0]) && IsDigit(s[1]) && IsDigit(s[2]) && IsDigit(s[3]) && Shaped(s[4..], n - 3)
  }

  lemma Split24(a: byte, b: byte, c: byte)
    ensures var n := a * 0x10000 + b * 0x100 + c;
      && n / 0x40000 == a / 4
      && n / 0x1000 % 64 == a % 4 * 16 + b / 16
      && n / 64 % 64 == b % 16 * 4 + c / 64
      && n % 64 == c % 64
  {
    var n := a * 0x10000 + b * 0x100 + c;
    Quotient(n, 0x40000, a / 4, a % 4 * 0x10000 + b * 0x100 + c);
    Quotient(n, 0x1000, a * 16 + b / 16, b % 16 * 0x100 + c);
    Quotient(a * 16 + b / 16, 64, a / 4, a % 4 * 16 + b / 16);
    Quotient(n, 64, a * 1024 + b * 4 + c / 64, c % 64);
    Quotient(a * 1024 + b * 4 + c / 64, 64, a * 16 + b / 16, b % 16 * 4 + c / 64);
  }

  lemma QuadBits(a: byte, b: byte, c: byte)
    ensures Quad(a, b, c) ==
      [Digit(a / 4), Digit(a % 4 * 16 + b / 16), Digit(b % 16 * 4 + c / 64), Digit(c % 64)]
  {
    hide Digit;
    Split24(a, b, c);
  }

  /** What the encoder writes for one group. */
  lemma EncodeGroup(g: seq<byte>)
    requires 0 < |g| <= 3
    ensures var a, b, c := g[0], if |g| > 1 then g[1] else 0, if |g| > 2 then g[2] else 0;
      Encode(g) == [Digit(a / 4), Digit(a % 4 * 16 + b / 16),
        if |g| > 1 then Digit(b % 16 * 4 + c / 64) else PAD, if |g| > 2 then Digit(c % 64) else PAD]
  {
    hide Digit, Quad;
    var a, b, c := g[0], if |g| > 1 then g[1] else 0, if |g| > 2 then g[2] else 0;
    QuadBits(a, b, c);
  }

  lemma Rejoin(a: byte, b: byte, c: byte)
    ensures a / 4 * 4 + (a % 4 * 16 + b / 16) / 16 == a
    ensures (a % 4 * 16 + b / 16) % 16 * 16 + (b % 16 * 4 + c / 64) / 4 == b
    ensures (b % 16 * 4 + c / 64) % 4 * 64 + c % 64 == c
  {
  }

  lemma QuadIsInjective(a: byte, b: byte, c: byte, s: string)
    requires s == Quad(a, b, c)
    ensures IsDigit(s[0]) && IsDigit(s[1]) && IsDigit(s[2]) && IsDigit(s[3])
    ensures a == Value(s[0]) * 4 + Value(s[1]) / 16
    ensures b == Value(s[1]) % 16 * 16 + Value(s[2]) / 4
    ensures c == Value(s[2]) % 4 * 64 + Value(s[3])
  {
    hide Digit, Quad, IsDigit, Value;
    QuadBits(a, b, c);
    Rejoin(a, b, c);
    DigitIsInjective(a / 4);
    DigitIsInjective(a % 4 * 16 + b / 16);
    DigitIsInjective(b % 16 * 4 + c / 64);
    DigitIsInjective(c % 64);
  }

  lemma JoinedBits(v: sextet, w: sextet, x: sextet, y: sextet)
    ensures var a, b, c := v * 4 + w / 16, w % 16 * 16 + x / 4, x % 4 * 64 + y;
      a / 4 == v && a % 4 * 16 + b / 16 == w && b % 16 * 4 + c / 64 == x && c % 64 == y
  {
  }

  lemma {:induction false} EncodeIsShaped(d: seq<byte>)
    ensures Shaped(Encode(d), |d|)
  {
    hide Digit;
    if |d| > 0 {
      var a, b, c := d[0], if |d| > 1 then d[1] else 0, if |d| > 2 then d[2] else 0;
      QuadIsInjective(a, b, c, Quad(a, b, c));
    }
    if |d| > 2 {
      EncodeIsShaped(d[3..]);
      assert Encode(d)[4..] == Encode(d[3..]);
    }
  }

  /** A string has the shape of at most one length. */
  lemma {:induction false} ShapeFixesLength(s: string, n: nat, m: nat)
    requires Shaped(s, n) && Shaped(s, m)
    ensures n == m
  {
    if n > 2 && m > 2 {
      ShapeFixesLength(s[4..], n - 3, m - 3);
    }
  }

  /** Different byte strings have different encodings. */
  lemma {:induction false} EncodeIsInjective(d: seq<byte>, e: seq<byte>)
    requires Encode(d) == Encode(e)
    ensures d == e
  {
    hide Digit;
    EncodeIsShaped(d);
    EncodeIsShaped(e);
    ShapeFixesLength(Encode(d), |d|, |e|);
    if |d| > 0 {
      FirstGroup(d);
      FirstGroup(e);
    }
    if |d| > 2 {
      assert Encode(d)[4..] == Encode(d[3..]) && Encode(e)[4..] == Encode(e[3..]);
      EncodeIsInjective(d[3..], e[3..]);
      assert d == d[..3] + d[3..] && e == e[..3] + e[3..];
    }
  }

  /** The first bytes out of the first digits; a last group's last digit leaves nothing. */
  lemma FirstGroup(d: seq<byte>)
    requires |d| > 0
    ensures var s := Encode(d);
      && IsDigit(s[0]) && IsDigit(s[1])
      && d[0] == Value(s[0]) * 4 + Value(s[1]) / 16
      && (|d| == 1 ==> Value(s[1]) % 16 == 0)
      && (|d| > 1 ==> IsDigit(s[2]) && d[1] == Value(s[1]) % 16 * 16 + Value(s[2]) / 4)
      && (|d| == 2 ==> Value(s[2]) % 4 == 0)
      && (|d| > 2 ==> IsDigit(s[3]) && d[2] == Value(s[2]) % 4 * 64 + Value(s[3]))
  {
    var a, b, c := d[0], if |d| > 1 then d[1] else 0, if |d| > 2 then d[2] else 0;
    QuadIsInjective(a, b, c, Quad(a, b, c));
  }

  /** Whole groups are encoded on their own. */
  lemma {:induction false} EncodeAppend(d: seq<byte>, e: seq<byte>)
    requires |d| % 3 == 0
    ensures Encode(d + e) == Encode(d) + Encode(e)
  {
    hide Quad, Encode;
    if |d| == 0 {
      EncodeNothing();
      assert d + e == e;
    } else {
      EncodeOneGroup(d);
      EncodeOneGroup(d + e);
      EncodeAppend(d[3..], e);
      assert (d + e)[3..] == d[3..] + e;
    }
  }

  lemma EncodeNothing()
    ensures Encode([]) == ""
  {
  }

  lemma EncodeOneGroup(d: seq<byte>)
    requires |d| >= 3
    ensures Encode(d) == Quad(d[0], d[1], d[2]) + Encode(d[3..])
  {
    hide Quad;
  }

  /** Examples of section 10 of RFC 4648: "f", "fo" and "foo". */
  lemma Examples()
    ensures Encode([0x66]) == "Zg=="
    ensures Encode([0x66, 0x6f]) == "Zm8="
    ensures Encode([0x66, 0x6f, 0x6f]) == "Zm9v"
  {
    hide Encode;
    EncodeGroup([0x66]);
    EncodeGroup([0x66, 0x6f]);
    EncodeGroup([0x66, 0x6f, 0x6f]);
  }

  /** And "foobar". */
  lemma LongerExample()
    ensures Encode([0x66, 0x6f, 0x6f, 0x62, 0x61, 0x72]) == "Zm9vYmFy"
  {
    hide Encode;
    Examples();
    EncodeGroup([0x62, 0x61, 0x72]);
    EncodeAppend([0x66, 0x6f, 0x6f], [0x62, 0x61, 0x72]);
    assert [0x66, 0x6f, 0x6f] + [0x62, 0x61, 0x72] == [0x66, 0x6f, 0x6f, 0x62, 0x61, 0x72];
    assert "Zm9v" + "YmFy" == "Zm9vYmFy";
  }

  // ----- the encoder -----

  /** Four characters at a position of the target. */
  method Put(target: array<char>, at: nat, quad: string)
    requires at + 4 <= target.Length && |quad| == 4
    modifies target
    ensures target[..at + 4] == old(target[..at]) + quad
    ensures target[at + 4..] == old(target[at + 4..])
  {
    target[at] := quad[0];
    target[at + 1] := quad[1];
    target[at + 2] := quad[2];
    target[at + 3] := quad[3];
  }

  lemma GroupsLength(q: nat)
    ensures EncodedLength(3 * q) == 4 * q
  {
  }

  lemma LengthStep(i: nat, n: nat)
    requires i <= n && i % 3 == 0
    ensures EncodedLength(i) <= EncodedLength(n) && EncodedLength(i + 3) == EncodedLength(i) + 4
    ensures i < n <= i + 3 ==> EncodedLength(n) == EncodedLength(i) + 4
  {
    var q := i / 3;
    assert i == 3 * q;
    if i < n <= i + 3 {
      assert n + 2 == 3 * (q + 1) + (n - i - 1);
    }
  }

  /** Writes the encoding and a terminator if they fit. */
  method B64Ntop(src: seq<byte>, target: array<char>, targsize: nat) returns (r: int)
    requires targsize <= target.Length
    modifies target
    ensures r >= 0 <==> EncodedLength(|src|) + 1 <= targsize
    ensures r >= 0 ==> r == EncodedLength(|src|) && target[..r] == Encode(src) && target[r] == NUL
    ensures r < 0 ==> r == -1
    ensures target[targsize..] == old(target[targsize..])
  {
    hide Digit, Encode, Quad, EncodedLength;
    var datalength, i := 0, 0;
    GroupsLength(0);
    assert Encode([]) == [];
    while 2 < |src| - i
      invariant 0 <= i <= |src| && i % 3 == 0
      invariant datalength <= targsize && datalength == EncodedLength(i)
      invariant target[..datalength] == Encode(src[..i])
      invariant target[targsize..] == old(target[targsize..])
    {
      ghost var group := src[i..i + 3];
      LengthStep(i, |src|);
      LengthStep(i + 3, |src|);
      EncodeGroup(group);
      EncodeAppend(src[..i], group);
      assert src[..i + 3] == src[..i] + group;
      var a, b, c := src[i], src[i + 1], src[i + 2];
      i := i + 3;
      if datalength + 4 > targsize {
        return -1;
      }
      Put(target, datalength,
        [Digit(a / 4), Digit(a % 4 * 16 + b / 16), Digit(b % 16 * 4 + c / 64), Digit(c % 64)]);
      datalength := datalength + 4;
    }
    ghost var last := src[i..];
    LengthStep(i, |src|);
    EncodeAppend(src[..i], last);
    assert src == src[..i] + last;
    if i != |src| {
      EncodeGroup(last);
      var a, b := src[i], if i + 1 < |src| then src[i + 1] else 0;
      if datalength + 4 > targsize {
        return -1;
      }
      Put(target, datalength,
        [Digit(a / 4), Digit(a % 4 * 16 + b / 16), if |src| - i == 1 then PAD else Digit(b % 16 * 4), PAD]);
      datalength := datalength + 4;
    }
    ghost var encoded, beyond := target[..datalength], target[targsize..];
    assert encoded == Encode(src) && beyond == old(target[targsize..]);
    if datalength >= targsize {
      return -1;
    }
    target[datalength] := NUL;
    r := datalength;
    assert target[..r] == encoded && target[targsize..] == beyond;
  }

  // ----- the decoder -----

  predicate IsSpace(c: char) {
    c == ' ' || 9 as char <= c <= 13 as char
  }

  /** White space is the space, the tab, the line feed, the vertical tab, the form feed and the carriage return. */
  lemma SpacesAre(c: char)
    ensures IsSpace(c) <==> c in [' ', '\t', '\n', '\U{000b}', '\U{000c}', '\r']
  {
  }

  /** The characters before the terminator that are not white space. */
  ghost function Significant(src: string): (s: string)
    requires NUL in src
  {
    if src[0] == NUL then "" else (if IsSpace(src[0]) then "" else [src[0]]) + Significant(src[1..])
  }

  function BitOr(a: nat, b: nat): nat {
    if a == 0 then b else (if a % 2 == 1 || b % 2 == 1 then 1 else 0) + 2 * BitOr(a / 2, b / 2)
  }

  ghost function Pow2(k: nat): (p: nat)
    ensures p > 0
  {
    if k == 0 then 1 else 2 * Pow2(k - 1)
  }

  /** Or is addition when no bit is set in both. */
  lemma {:induction false} OrOfDisjoint(a: nat, b: nat, k: nat)
    requires b < Pow2(k)
    ensures BitOr(a * Pow2(k), b) == a * Pow2(k) + b
  {
    if k == 0 {
      OrWithZero(a);
    } else {
      var n := a * Pow2(k);
      assert n == 2 * (a * Pow2(k - 1));
      OrOfDisjoint(a, b / 2, k - 1);
    }
  }

  lemma {:induction false} OrWithZero(a: nat)
    ensures BitOr(a, 0) == a
  {
    if a > 0 {
      OrWithZero(a / 2);
    }
  }

  lemma OrJoins(v: sextet, w: sextet)
    ensures BitOr(v * 4, w / 16) == v * 4 + w / 16
    ensures BitOr(v % 16 * 16, w / 4) == v % 16 * 16 + w / 4
    ensures BitOr(v % 4 * 64, w) == v % 4 * 64 + w
  {
    assert Pow2(2) == 4 && Pow2(4) == 16 && Pow2(6) == 64 by {
      assert Pow2(1) == 2 && Pow2(3) == 8 && Pow2(5) == 32;
    }
    OrOfDisjoint(v, w / 16, 2);
    OrOfDisjoint(v % 16, w / 4, 4);
    OrOfDisjoint(v % 4, w, 6);
  }

  /** The first 4 * q characters are digits. */
  ghost predicate DigitsFor(s: string, q: nat) {
    4 * q <= |s| && forall j :: 0 <= j < 4 * q ==> IsDigit(s[j])
  }

  /** Whole groups can be cut off a shape, and off an encoding. */
  lemma {:induction false} CutShape(s: string, q: nat, n: nat)
    requires DigitsFor(s, q)
    ensures Shaped(s, n) <==> n >= 3 * q && Shaped(s[4 * q..], n - 3 * q)
  {
    if q == 0 {
      assert s[0..] == s;
    } else {
      assert IsDigit(s[0]) && IsDigit(s[1]) && IsDigit(s[2]) && IsDigit(s[3]);
      if n > 2 {
        CutShape(s[4..], q - 1, n - 3);
        assert s[4..][4 * (q - 1)..] == s[4 * q..];
      }
    }
  }

  lemma DropGroups(q: nat, x: seq<byte>, y: seq<byte>)
    requires |x| == 3 * q
    ensures |Encode(x + y)| >= 4 * q && Encode(x + y)[4 * q..] == Encode(y)
  {
    hide *;
    EncodeAppend(x, y);
    GroupsLength(q);
  }

  lemma CutEncoding(q: nat, d: seq<byte>)
    requires DigitsFor(Encode(d), q)
    ensures |d| >= 3 * q && Encode(d[3 * q..]) == Encode(d)[4 * q..]
  {
    hide *;
    EncodeIsShaped(d);
    CutShape(Encode(d), q, |d|);
    SplitEncoding(q, d);
  }

  lemma SplitEncoding(q: nat, d: seq<byte>)
    requires |d| >= 3 * q
    ensures |Encode(d)| >= 4 * q && Encode(d)[4 * q..] == Encode(d[3 * q..])
  {
    hide *;
    DropGroups(q, d[..3 * q], d[3 * q..]);
    assert d == d[..3 * q] + d[3 * q..];
  }

  /** What is behind q groups starts with some digits. */
  ghost predicate Pending(s: string, q: nat, state: nat) {
    && DigitsFor(s, q) && 4 * q + state <= |s| && state < 4
    && (forall j :: 4 * q <= j < 4 * q + state ==> IsDigit(s[j]))
  }

  function Index(q: nat, state: nat): nat {
    if state == 0 then 3 * q else 3 * q + state - 1
  }

  /** The string ends with the group, or with exactly the padding that completes it. */
  ghost predicate Complete(s: string, q: nat, state: nat) {
    if |s| == 4 * q + state then state == 0
    else 2 <= state < 4 && |s| == 4 * q + 4 && s[4 * q + state] == s[4 * q + 3] == PAD
  }

  /** Behind the last digit, a string has an encoding's shape if it is complete. */
  lemma EndDecidesShape(s: string, q: nat, state: nat, n: nat)
    requires Pending(s, q, state)
    requires 4 * q + state == |s| || !IsDigit(s[4 * q + state])
    ensures Shaped(s, n) <==> n == Index(q, state) && Complete(s, q, state)
  {
    CutShape(s, q, n);
    var c := s[4 * q..];
    assert forall j :: 0 <= j < |c| ==> c[j] == s[4 * q + j];
  }

  /** One more digit needs room for one more byte, and if that is the last byte then it leaves nothing. */
  lemma DigitNeedsRoom(s: string, q: nat, state: nat, d: seq<byte>)
    requires Pending(s, q, state) && 4 * q + state < |s| && IsDigit(s[4 * q + state])
    requires s == Encode(d)
    ensures Index(q, state) < |d|
    ensures |d| == Index(q, state) + 1 && state > 0 ==> Leaves(state, Value(s[4 * q + state])) == 0
  {
    hide Encode, Digit, Value, EncodedLength;
    CutEncoding(q, d);
    var e := d[3 * q..];
    var c := s[4 * q..];
    assert c == Encode(e) && c[state] == s[4 * q + state] != PAD;
    EncodeIsShaped(e);
    FirstGroup(e);
  }

  lemma NoRoom(s: string, q: nat, state: nat, targsize: nat)
    requires Pending(s, q, state) && 4 * q + state < |s| && IsDigit(s[4 * q + state])
    requires targsize <= Index(q, state)
      || (targsize <= Index(q, state) + 1 && state > 0 && Leaves(state, Value(s[4 * q + state])) != 0)
    ensures forall d :: |d| <= targsize ==> s != Encode(d)
  {
    forall d | |d| <= targsize ensures s != Encode(d) {
      if s == Encode(d) {
        DigitNeedsRoom(s, q, state, d);
      }
    }
  }

  /** What digit k of a group leaves for the next byte. */
  function Leaves(k: nat, v: sextet): (b: byte) {
    if k == 0 then v * 4 else if k == 1 then v % 16 * 16 else if k == 2 then v % 4 * 64 else 0
  }

  /** What digit k of a group adds to the byte before. */
  function Adds(k: nat, v: sextet): (b: byte) {
    if k == 1 then v / 16 else if k == 2 then v / 4 else v
  }

  lemma OrAdds(k: nat, v: sextet, w: sextet)
    requires k < 3
    ensures BitOr(Leaves(k, v), Adds(k + 1, w)) == Leaves(k, v) + Adds(k + 1, w) < 256
  {
    OrJoins(v, w);
  }

  /** The bytes that the first digits of c join. */
  ghost predicate Joined(b: seq<byte>, c: string) {
    && |b| < |c|
    && (forall j :: 0 <= j < |c| ==> IsDigit(c[j]))
    && (forall j :: 0 <= j < |b| ==> b[j] == Leaves(j, Value(c[j])) + Adds(j + 1, Value(c[j + 1])))
  }

  lemma JoinedIsDecoding(b: seq<byte>, c: string)
    requires |c| == 4 && |b| == 3 && Joined(b, c)
    ensures c == Encode(b)
  {
    hide Digit, Value, Quad, EncodedLength, Encode, IsDigit;
    var v: int, w: int, x: int, y: int := Value(c[0]), Value(c[1]), Value(c[2]), Value(c[3]);
    EncodeGroup(b);
    JoinedBits(v, w, x, y);
    assert b[0] == v * 4 + w / 16 && b[1] == w % 16 * 16 + x / 4 && b[2] == x % 4 * 64 + y;
    assert c == [Digit(v), Digit(w), Digit(x), Digit(y)];
  }

  /** The target after q groups and some digits: the groups are decoded, the digits are joined, and
      what the last of them leaves is in the next byte, or is zero if there is none. */
  ghost predicate Decoded(t: seq<byte>, s: string, q: nat, state: nat)
    requires Pending(s, q, state)
  {
    var i := Index(q, state);
    && i <= |t| && Encode(t[..3 * q]) == s[..4 * q]
    && (state == 1 ==> i < |t|)
    && (state > 0 ==> Joined(t[3 * q..i], s[4 * q..4 * q + state]))
    && (state > 0 ==> (if i < |t| then t[i] else 0) == Leaves(state - 1, Value(s[4 * q + state - 1])))
  }

  /** What storing a digit does to the target. */
  ghost predicate Stored(t: seq<byte>, t': seq<byte>, i: nat, state: nat, v: sextet) {
    && |t'| == |t| && i < |t| && t'[..i] == t[..i]
    && t'[i] == (if state == 0 then v * 4 else t[i] + Adds(state, v))
    && (state > 0 ==> (if i + 1 < |t| then t'[i + 1] else 0) == Leaves(state, v) || state == 3)
  }

  lemma StoredIsDecoded(t: seq<byte>, t': seq<byte>, s: string, q: nat, state: nat)
    requires Pending(s, q, state) && 4 * q + state < |s| && IsDigit(s[4 * q + state])
    requires Decoded(t, s, q, state) && Stored(t, t', Index(q, state), state, Value(s[4 * q + state]))
    ensures state < 3 ==> Pending(s, q, state + 1) && Decoded(t', s, q, state + 1)
    ensures state == 3 ==> Pending(s, q + 1, 0) && Decoded(t', s, q + 1, 0)
  {
    hide Encode, Digit, Value, EncodedLength, IsDigit, Joined;
    assert t'[..3 * q] == t[..3 * q];
    StoredIsJoined(t, t', s, q, state);
    if state == 3 {
      GroupIsDecoded(t', s, q);
    }
  }

  /** A group that is joined extends what is decoded. */
  lemma GroupIsDecoded(t: seq<byte>, s: string, q: nat)
    requires 3 * (q + 1) <= |t| && 4 * (q + 1) <= |s| && Encode(t[..3 * q]) == s[..4 * q]
    requires Joined(t[3 * q..3 * (q + 1)], s[4 * q..4 * (q + 1)])
    ensures Encode(t[..3 * (q + 1)]) == s[..4 * (q + 1)]
  {
    hide Encode, Digit, Value, EncodedLength, IsDigit, Joined;
    var b, c := t[3 * q..3 * (q + 1)], s[4 * q..4 * (q + 1)];
    JoinedIsDecoding(b, c);
    EncodeAppend(t[..3 * q], b);
    assert t[..3 * (q + 1)] == t[..3 * q] + b;
    assert s[..4 * (q + 1)] == s[..4 * q] + c;
  }

  lemma StoredIsJoined(t: seq<byte>, t': seq<byte>, s: string, q: nat, state: nat)
    requires Pending(s, q, state) && 4 * q + state < |s| && IsDigit(s[4 * q + state])
    requires Decoded(t, s, q, state) && Stored(t, t', Index(q, state), state, Value(s[4 * q + state]))
    ensures Joined(t'[3 * q..Index(q, state + 1)], s[4 * q..4 * q + state + 1])
  {
    hide Encode, Digit, Value, EncodedLength, IsDigit;
    var i := Index(q, state);
    var c := s[4 * q..4 * q + state + 1];
    if state == 0 {
      assert c == [s[4 * q]];
    } else {
      assert t'[3 * q..i + 1] == t[3 * q..i] + [t'[i]];
      assert c == s[4 * q..4 * q + state] + [s[4 * q + state]];
    }
  }

  lemma Incomplete(s: string, q: nat, state: nat)
    requires Pending(s, q, state) && !Complete(s, q, state)
    requires 4 * q + state == |s| || !IsDigit(s[4 * q + state])
    ensures forall n :: !Shaped(s, n)
    ensures forall d :: s != Encode(d)
  {
    forall n ensures !Shaped(s, n) {
      EndDecidesShape(s, q, state, n);
    }
    forall d ensures s != Encode(d) {
      EncodeIsShaped(d);
    }
  }

  /** Bits left over from the last digit are in no encoding. */
  lemma LeftOver(s: string, q: nat, state: nat)
    requires Pending(s, q, state) && Complete(s, q, state) && state > 0
    requires Leaves(state - 1, Value(s[4 * q + state - 1])) != 0
    ensures forall d :: s != Encode(d)
  {
    hide Digit, Value, Encode, EncodedLength;
    forall d ensures s != Encode(d) {
      if s == Encode(d) {
        EncodeIsShaped(d);
        EndDecidesShape(s, q, state, |d|);
        CutEncoding(q, d);
        var c := s[4 * q..];
        assert c[state - 1] == s[4 * q + state - 1];
        FirstGroup(d[3 * q..]);
      }
    }
  }

  lemma DecodedIsDecoding(t: seq<byte>, s: string, q: nat, state: nat)
    requires Pending(s, q, state) && Complete(s, q, state) && Decoded(t, s, q, state)
    requires state > 0 ==> Leaves(state - 1, Value(s[4 * q + state - 1])) == 0
    ensures s == Encode(t[..Index(q, state)])
  {
    hide Digit, Value, Encode, EncodedLength, Leaves, Adds;
    var i := Index(q, state);
    assert t[..i] == t[..3 * q] + t[3 * q..i];
    if state > 0 {
      assert s[4 * q..][..state] == s[4 * q..4 * q + state];
      LastGroup(t[3 * q..i], s[4 * q..]);
      EncodeAppend(t[..3 * q], t[3 * q..i]);
      assert s == s[..4 * q] + s[4 * q..];
    } else {
      assert s == s[..4 * q];
    }
  }

  lemma LastGroup(b: seq<byte>, c: string)
    requires |c| == 4 && 0 < |b| < 3 && Joined(b, c[..|b| + 1])
    requires Leaves(|b|, Value(c[|b|])) == 0
    requires c[3] == c[|b| + 1] == PAD
    ensures c == Encode(b)
  {
    hide Digit, Value, Quad, EncodedLength, Encode, IsDigit;
    if |b| == 1 {
      LastOfOne(b, c);
    } else {
      LastOfTwo(b, c);
    }
  }

  lemma LastOfOne(b: seq<byte>, c: string)
    requires |c| == 4 && |b| == 1 && Joined(b, c[..2]) && Leaves(1, Value(c[1])) == 0 && c[2] == c[3] == PAD
    ensures c == Encode(b)
  {
    hide Digit, Value, Quad, EncodedLength, Encode, IsDigit;
    var v: int, w: int := Value(c[0]), Value(c[1]);
    EncodeGroup(b);
    JoinedBits(v, w, 0, 0);
    assert b[0] == v * 4 + w / 16;
    assert c == [Digit(v), Digit(w), PAD, PAD];
  }

  lemma LastOfTwo(b: seq<byte>, c: string)
    requires |c| == 4 && |b| == 2 && Joined(b, c[..3]) && Leaves(2, Value(c[2])) == 0 && c[3] == PAD
    ensures c == Encode(b)
  {
    hide Digit, Value, Quad, EncodedLength, Encode, IsDigit;
    var v: int, w: int, x: int := Value(c[0]), Value(c[1]), Value(c[2]);
    EncodeGroup(b);
    JoinedBits(v, w, x, 0);
    assert b[0] == v * 4 + w / 16 && b[1] == w % 16 * 16 + x / 4;
    assert c == [Digit(v), Digit(w), Digit(x), PAD];
  }

  /** The switch of the decoder: join a digit to the byte it is for, and begin the next byte. It fails if
      there is no room for what is left of the digit. */
  method JoinDigit(target: array?<byte>, targsize: nat, tarindex: nat, state: nat, v: sextet)
    returns (ok: bool, index: nat, next: nat)
    requires state < 4 && (target != null ==> tarindex < targsize <= target.Length)
    requires target != null && state > 0 ==>
      BitOr(target[tarindex], Adds(state, v)) == target[tarindex] + Adds(state, v) < 256
    modifies target
    ensures target != null ==> target[targsize..] == old(target[targsize..])
    ensures ok ==> next == (state + 1) % 4 && index == tarindex + if state == 0 then 0 else 1
    ensures ok && target != null ==> Stored(old(target[..targsize]), target[..targsize], tarindex, state, v)
    ensures !ok ==> target != null && 0 < state < 3 && targsize == tarindex + 1 && Leaves(state, v) != 0
  {
    ok, index, next := true, tarindex, state;
    match state {
      case 0 =>
        if target != null {
          target[tarindex] := v * 4;
        }
        next := 1;
      case 1 =>
        if target != null {
          target[tarindex] := BitOr(target[tarindex], v / 16);
          var nextbyte := v % 16 * 16;
          if tarindex + 1 < targsize {
            target[tarindex + 1] := nextbyte;
          } else if nextbyte != 0 {
            return false, index, next;
          }
        }
        index, next := tarindex + 1, 2;
      case 2 =>
        if target != null {
          target[tarindex] := BitOr(target[tarindex], v / 4);
          var nextbyte := v % 4 * 64;
          if tarindex + 1 < targsize {
            target[tarindex + 1] := nextbyte;
          } else if nextbyte != 0 {
            return false, index, next;
          }
        }
        index, next := tarindex + 1, 3;
      case _ =>
        if target != null {
          target[tarindex] := BitOr(target[tarindex], v);
        }
        index, next := tarindex + 1, 0;
    }
  }

  /** Store one digit. */
  method StoreDigit(target: array?<byte>, targsize: nat, tarindex: nat, state: nat, v: sextet,
      ghost s: string, ghost q: nat)
    returns (ok: bool, index: nat, next: nat)
    requires Pending(s, q, state) && 4 * q + state < |s| && IsDigit(s[4 * q + state])
    requires v == Value(s[4 * q + state]) && tarindex == Index(q, state)
    requires target != null ==> targsize <= target.Length && Decoded(target[..targsize], s, q, state)
    modifies target
    ensures target != null ==> target[targsize..] == old(target[targsize..])
    ensures !ok ==> target != null && forall d :: |d| <= targsize ==> s != Encode(d)
    ensures ok ==> next == (state + 1) % 4
    ensures ok ==> var q' := if state == 3 then q + 1 else q;
      Pending(s, q', next) && index == Index(q', next) && (target != null ==> Decoded(target[..targsize], s, q', next))
  {
    hide Digit, Encode, Value, IsDigit, EncodedLength, Stored, Leaves, Adds, BitOr, Joined;
    ok, index, next := true, tarindex, state;
    if target != null && tarindex >= targsize {
      NoRoom(s, q, state, targsize);
      return false, index, next;
    }
    ghost var t := if target != null then target[..targsize] else [];
    if target != null && state > 0 {
      OrAdds(state - 1, Value(s[4 * q + state - 1]), v);
      assert t[tarindex] == Leaves(state - 1, Value(s[4 * q + state - 1]));
    }
    ok, index, next := JoinDigit(target, targsize, tarindex, state, v);
    if !ok {
      NoRoom(s, q, state, targsize);
      return;
    }
    if target != null {
      StoredIsDecoded(t, target[..targsize], s, q, state);
    }
  }

  lemma NextCharacter(src: string, i: nat)
    requires i < |src| && NUL in src[i..] && src[i] != NUL
    ensures NUL in src[i + 1..]
    ensures Significant(src[i..]) == (if IsSpace(src[i]) then "" else [src[i]]) + Significant(src[i + 1..])
  {
    assert src[i..][1..] == src[i + 1..];
    assert src[i..] == [src[i]] + src[i + 1..];
  }

  lemma FirstCharacter(src: string, i: nat)
    requires i < |src| && NUL in src[i..] && !IsSpace(src[i])
    ensures var rest := Significant(src[i..]);
      if src[i] == NUL then rest == "" else |rest| > 0 && rest[0] == src[i]
  {
  }

  method SkipSpaces(src: string, i: nat) returns (j: nat)
    requires i < |src| && NUL in src[i..]
    ensures i <= j < |src| && NUL in src[j..] && !IsSpace(src[j])
    ensures Significant(src[j..]) == Significant(src[i..])
  {
    j := i;
    while src[j] != NUL && IsSpace(src[j])
      invariant i <= j < |src| && NUL in src[j..]
      invariant Significant(src[j..]) == Significant(src[i..])
      decreases |src| - j
    {
      NextCharacter(src, j);
      j := j + 1;
    }
  }

  /** At the first padding character: is the rest, white space aside, the padding that completes the group? */
  method EndsInPadding(src: string, at: nat, state: nat, ghost s: string, ghost q: nat) returns (complete: bool)
    requires at < |src| && NUL in src[at..] && src[at] == PAD
    requires Pending(s, q, state) && Significant(src[at..]) == s[4 * q + state..]
    ensures complete <==> Complete(s, q, state)
  {
    hide Significant;
    ghost var rest := s[4 * q + state..];
    assert |rest| > 0 ==> s[4 * q + state] == rest[0];
    assert |rest| > 1 ==> s[4 * q + state + 1] == rest[1];
    FirstCharacter(src, at);
    if state < 2 {
      return false;
    }
    NextCharacter(src, at);
    var i := at + 1;
    if state == 2 {
      i := SkipSpaces(src, i);
      FirstCharacter(src, i);
      if src[i] != PAD {
        return false;
      }
      NextCharacter(src, i);
      i := i + 1;
    }
    i := SkipSpaces(src, i);
    FirstCharacter(src, i);
    return src[i] == NUL;
  }

  lemma SamePrefix(t: seq<byte>, n: nat, m: nat)
    requires m <= n <= |t|
    ensures t[..n][..m] == t[..m]
  {
  }

  /** With a target, the result is not negative exactly if the input, white space aside, is the
      encoding of bytes that fit, and then the target starts with those bytes; without one, if the
      input has the shape of an encoding of that many bytes. */
  method B64Pton(src: string, target: array?<byte>, targsize: nat) returns (r: int)
    requires NUL in src
    requires target != null ==> targsize <= target.Length
    modifies target
    ensures target != null ==> target[targsize..] == old(target[targsize..])
    ensures r >= -1
    ensures target != null && r >= 0 ==> r <= targsize && Significant(src) == Encode(target[..r])
    ensures target != null && r < 0 ==> forall d :: |d| <= targsize ==> Significant(src) != Encode(d)
    ensures target == null && r >= 0 ==> Shaped(Significant(src), r)
    ensures target == null && r < 0 ==> forall n :: !Shaped(Significant(src), n)
  {
    hide Digit, Encode, Value, EncodedLength, Leaves, Adds, Shaped, Significant;
    ghost var s, q := Significant(src), 0;
    var tarindex, state, i := 0, 0, 0;
    assert src[0..] == src;
    StartDecoding(s, if target != null then target[..targsize] else []);
    while src[i] != NUL
      invariant i < |src| && NUL in src[i..]
      invariant Pending(s, q, state) && tarindex == Index(q, state)
      invariant Significant(src[i..]) == s[4 * q + state..]
      invariant target != null ==> Decoded(target[..targsize], s, q, state)
      invariant target != null ==> target[targsize..] == old(target[targsize..])
      decreases |src| - i
    {
      var ch := src[i];
      NextCharacter(src, i);
      if IsSpace(ch) {
        i := i + 1;
        continue;
      }
      if ch == PAD {
        break;
      }
      if !IsDigit(ch) {
        Incomplete(s, q, state);
        return -1;
      }
      var ok;
      ghost var full := state == 3;
      ok, tarindex, state := StoreDigit(target, targsize, tarindex, state, Value(ch), s, q);
      if !ok {
        return -1;
      }
      q := if full then q + 1 else q;
      i := i + 1;
    }
    FirstCharacter(src, i);
    var complete := state == 0;
    if src[i] == PAD {
      complete := EndsInPadding(src, i, state, s, q);
    }
    if !complete {
      Incomplete(s, q, state);
      return -1;
    }
    if target != null {
      if src[i] == PAD && tarindex < targsize && target[tarindex] != 0 {
        LeftOver(s, q, state);
        return -1;
      }
      DecodedIsDecoding(target[..targsize], s, q, state);
      SamePrefix(target[..], targsize, tarindex);
    }
    EndDecidesShape(s, q, state, tarindex);
    r := tarindex;
  }

  lemma StartDecoding(s: string, t: seq<byte>)
    ensures Pending(s, 0, 0) && Decoded(t, s, 0, 0)
  {
  }
}
