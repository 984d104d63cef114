/** Types and sequence facts shared by every component. */
module Base {

  datatype Option<+T> = None | Some(value: T)

  /** One octet of captured data. */
  type byte = b: int | 0 <= b < 0x100

  /** A 32-bit unsigned number. */
  type u32 = n: int | 0 <= n < 0x1_0000_0000

  function Min(a: int, b: int): int {
    if a <= b then a else b
  }

  function Max(a: int, b: int): int {
    if a >= b then a else b
  }

  /** Two bytes read big-endian, as `u16::from_be_bytes` does. */
  function BigEndian16(high: byte, low: byte): (n: int)
    ensures 0 <= n < 0x1_0000
  {
    high * 0x100 + low
  }

  /** The first `n` elements, or all of them when there are fewer. */
  function Prefix<T>(s: seq<T>, n: nat): seq<T> {
    s[..Min(|s|, n)]
  }

  lemma PrefixOfConcat<T>(a: seq<T>, b: seq<T>, n: nat)
    ensures Prefix(a + b, n) == Prefix(a, n) + Prefix(b, Max(n - |a|, 0))
  {
  }

  lemma PrefixOfPrefix<T>(a: seq<T>, b: seq<T>, c: seq<T>, n: nat)
    ensures Prefix(Prefix(a + b, n) + c, n) == Prefix(a + (b + c), n)
  {
    assert (a + b) + c == a + (b + c);
  }

  lemma MultiplesApart(a: int, b: int, k: int)
    requires k > 0 && a > b
    ensures a * k >= b * k + k
  {
    assert a * k - b * k == (a - b) * k;
    assert (a - b - 1) * k >= 0;
  }

  lemma QuotientIsUnique(n: int, k: int, q: int, r: int)
    requires k > 0 && n == q * k + r && 0 <= r < k
    ensures n / k == q && n % k == r
  {
    var a, b := n / k, n % k;
    assert n == a * k + b && 0 <= b < k;
    if a > q {
      MultiplesApart(a, q, k);
    } else if a < q {
      MultiplesApart(q, a, k);
    }
  }

  lemma MultiplesKept(a: int, b: int, p: nat)
    requires a >= b
    ensures a * p >= b * p
  {
    assert a * p - b * p == (a - b) * p;
  }

  lemma QuotientNotNegative(n: nat, k: nat)
    requires k > 0
    ensures n / k >= 0
  {
    var q := n / k;
    assert n == q * k + n % k;
    if q < 0 {
      MultiplesApart(0, q, k);
    }
  }

  lemma SubsetIsNoLarger<T>(a: set<T>, b: set<T>)
    requires a <= b
    ensures |a| <= |b|
  {
    assert b == a + (b - a);
  }

  /** Lexicographic order, a prefix first. */
  predicate LexLe(a: seq<int>, b: seq<int>) {
    if a == [] then true
    else if b == [] then false
    else a[0] < b[0] || (a[0] == b[0] && LexLe(a[1..], b[1..]))
  }

  lemma {:induction false} LexLeTotal(a: seq<int>, b: seq<int>)
    ensures LexLe(a, b) || LexLe(b, a)
    ensures LexLe(a, b) && LexLe(b, a) ==> a == b
    ensures LexLe(a, a)
  {
    if a != [] {
      LexLeTotal(a[1..], if b == [] then [] else b[1..]);
      if b != [] {
        assert a == [a[0]] + a[1..] && b == [b[0]] + b[1..];
      }
    }
  }

  lemma {:induction false} LexLeTransitive(a: seq<int>, b: seq<int>, c: seq<int>)
    requires LexLe(a, b) && LexLe(b, c)
    ensures LexLe(a, c)
  {
    if a != [] && a[0] == b[0] && b[0] == c[0] {
      LexLeTransitive(a[1..], b[1..], c[1..]);
    }
  }

  lemma SplitEqual(a: seq<int>, b: seq<int>, c: seq<int>, d: seq<int>)
    requires |a| == |c| && a + b == c + d
    ensures a == c && b == d
  {
    assert (a + b)[..|a|] == a && (c + d)[..|a|] == c;
    assert (a + b)[|a|..] == b && (c + d)[|a|..] == d;
  }
}
