/** Types and sequence facts shared by the other modules. */
module Base {
  datatype Option<+T> = None | Some(value: T)

  /** How a receive on a queue treats an empty one: waits for ever, not at all, or for a while. */
  datatype Mode = Blocking | Try | Timed

  type byte = x: int | 0 <= x < 256

  /** The concatenation of a list of chunks. */
  function Flatten<T>(parts: seq<seq<T>>): seq<T> {
    if parts == [] then [] else parts[0] + Flatten(parts[1..])
  }

  lemma FlattenOne<T>(a: seq<T>)
    ensures Flatten([a]) == a
  {
    assert Flatten([a]) == a + [];
  }

  lemma {:induction false} FlattenAppend<T>(a: seq<seq<T>>, b: seq<seq<T>>)
    ensures Flatten(a + b) == Flatten(a) + Flatten(b)
  {
    if a == [] {
      assert a + b == b;
    } else {
      assert (a + b)[0] == a[0] && (a + b)[1..] == a[1..] + b;
      FlattenAppend(a[1..], b);
    }
  }

  lemma ConcatAssoc<T>(a: seq<T>, b: seq<T>, c: seq<T>)
    ensures a + b + c == a + (b + c)
  {}

  /** Little-endian integers, the byte order of the platforms the program runs on. */
  function LittleEndian(n: nat, width: nat): (s: seq<byte>)
    ensures |s| == width
  {
    if width == 0 then [] else [n % 256] + LittleEndian(n / 256, width - 1)
  }

  function FromLittleEndian(s: seq<byte>): nat {
    if s == [] then 0 else s[0] + 256 * FromLittleEndian(s[1..])
  }

  function Pow256(width: nat): (p: nat)
    ensures p > 0
  {
    if width == 0 then 1 else 256 * Pow256(width - 1)
  }

  /** Byte `i` is digit `i` of the number to base 256, lowest first. */
  lemma {:induction false} LittleEndianDigit(n: nat, width: nat, i: nat)
    requires i < width
    ensures LittleEndian(n, width)[i] == n / Pow256(i) % 256
  {
    if i > 0 {
      LittleEndianDigit(n / 256, width - 1, i - 1);
      DivideTwice(n, Pow256(i - 1));
    }
  }

  lemma DivideTwice(n: nat, m: nat)
    requires m > 0
    ensures n / 256 / m == n / (256 * m)
  {
    var a, low := n / 256, n % 256;
    var q, r := a / m, a % m;
    assert 256 * a == 256 * (q * m) + 256 * r;
    assert 256 * (q * m) == q * (256 * m);
    QuotientIs(n, 256 * m, q, 256 * r + low);
  }

  lemma QuotientIs(n: nat, m: nat, q: nat, r: nat)
    requires n == q * m + r && r < m
    ensures n / m == q
  {
    TimesGrows(n / m + 1, q, m);
    TimesGrows(q + 1, n / m, m);
  }

  lemma TimesGrows(a: nat, b: nat, m: nat)
    ensures a <= b ==> a * m <= b * m
  {}

  /** The four bytes of a 32-bit integer, the low one first. */
  lemma FourBytes(n: nat)
    ensures LittleEndian(n, 4) == [n % 256, n / 0x100 % 256, n / 0x1_0000 % 256, n / 0x100_0000 % 256]
  {
    assert Pow256(1) == 0x100 && Pow256(2) == 0x1_0000 && Pow256(3) == 0x100_0000;
    LittleEndianDigit(n, 4, 0);
    LittleEndianDigit(n, 4, 1);
    LittleEndianDigit(n, 4, 2);
    LittleEndianDigit(n, 4, 3);
  }

  lemma FromFourBytes(s: seq<byte>)
    requires |s| == 4
    ensures var a: nat, b: nat, c: nat, d: nat := s[0], s[1], s[2], s[3];
      FromLittleEndian(s) == a + 0x100 * b + 0x1_0000 * c + 0x100_0000 * d
  {
    assert FromLittleEndian(s[3..]) == s[3] by { assert s[3..][1..] == []; }
    assert s[2..][1..] == s[3..] && s[1..][1..] == s[2..];
    assert FromLittleEndian(s[2..]) == s[2] + 256 * FromLittleEndian(s[3..]);
  }

  lemma {:induction false} LittleEndianRoundTrip(n: nat, width: nat)
    requires n < Pow256(width)
    ensures FromLittleEndian(LittleEndian(n, width)) == n
  {
    if width > 0 {
      var rest := LittleEndian(n / 256, width - 1);
      assert LittleEndian(n, width)[1..] == rest;
      LittleEndianRoundTrip(n / 256, width - 1);
    }
  }

  lemma {:induction false} FromLittleEndianRoundTrip(s: seq<byte>)
    ensures FromLittleEndian(s) < Pow256(|s|)
    ensures LittleEndian(FromLittleEndian(s), |s|) == s
  {
    if s != [] {
      var low, high := s[0], FromLittleEndian(s[1..]);
      FromLittleEndianRoundTrip(s[1..]);
      SplitLowByte(low, high);
      assert FromLittleEndian(s) == low + 256 * high;
      assert s == [low] + s[1..];
    }
  }

  lemma SplitLowByte(low: byte, high: nat)
    ensures (low + 256 * high) % 256 == low && (low + 256 * high) / 256 == high
  {}

  lemma {:induction false} SubsetCardinality<T>(a: set<T>, b: set<T>)
    requires a <= b
    ensures |a| <= |b|
    ensures |a| == |b| ==> a == b
  {
    assert b == a + (b - a);
    assert |b| == |a| + |b - a|;
  }
}
