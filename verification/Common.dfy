/** Stock definitions that several modules share. */
module Common {
  /** The largest int, and the number of unsigned 32-bit integers. */
  const INT_MAX := 0x7fff_ffff
  const UINT_RANGE := 0x1_0000_0000

  /** The terminator of strings. */
  const NUL := 0 as char

  datatype Option<T> = None | Some(value: T)

  ghost predicate Distinct<T>(s: seq<T>) {
    forall j, k :: 0 <= j < k < |s| ==> s[j] != s[k]
  }

  function Elements<T(==)>(s: seq<T>): set<T> {
    set i | i in s
  }

  /** Where an element first is in a list, or the length of the list. */
  function IndexOf<T(==)>(l: seq<T>, x: T): (k: nat)
    ensures k <= |l| && (k < |l| ==> l[k] == x) && (k == |l| <==> x !in l)
    ensures forall j :: 0 <= j < k ==> l[j] != x
  {
    if |l| == 0 || l[0] == x then 0 else 1 + IndexOf(l[1..], x)
  }

  lemma IndexIs<T>(l: seq<T>, k: nat)
    requires Distinct(l) && k < |l|
    ensures IndexOf(l, l[k]) == k
  {
  }

  lemma Quotient(n: int, d: int, q: int, r: int)
    requires n == d * q + r && 0 <= r < d
    ensures n / d == q && n % d == r
  {
    var z := n / d - q;
    assert d * z == r - n % d;
    assert z >= 1 ==> d * z >= d;
    assert z <= -1 ==> d * z <= -d;
  }
}
