/** Fixed-width integers as they are written, where they stand in a file, and that they are read back. */
module BinaryEncoding {
  import opened Binary

  function Put16(n: nat, little: bool): (r: Bytes)
    requires n < 0x1_0000
    ensures |r| == 2
  {
    if little then [n % 0x100, n / 0x100] else [n / 0x100, n % 0x100]
  }

  function Put32(n: nat, little: bool): (r: Bytes)
    requires n < 0x1_0000_0000
    ensures |r| == 4
  {
    var a, b, c, d := n / 0x100_0000, n / 0x1_0000 % 0x100, n / 0x100 % 0x100, n % 0x100;
    if little then [d, c, b, a] else [a, b, c, d]
  }

  function Put64(n: nat, little: bool): (r: Bytes)
    requires n < 0x1_0000_0000_0000_0000
    ensures |r| == 8
  {
    var high, low := n / 0x1_0000_0000, n % 0x1_0000_0000;
    if little then Put32(low, true) + Put32(high, true) else Put32(high, false) + Put32(low, false)
  }

  /** The two's complement of a signed integer. */
  function Unsigned(n: int): nat
    requires -0x8000_0000 <= n < 0x8000_0000
  {
    if n < 0 then n + 0x1_0000_0000 else n
  }

  predicate StandsAt(bytes: Bytes, at: nat, part: Bytes) {
    at + |part| <= |bytes| && bytes[at..at + |part|] == part
  }

  lemma U16At(bytes: Bytes, at: nat, n: nat, little: bool)
    requires n < 0x1_0000 && StandsAt(bytes, at, Put16(n, little))
    ensures U16(bytes, at, little) == n
  {
    assert bytes[at] == bytes[at..at + 2][0] && bytes[at + 1] == bytes[at..at + 2][1];
  }

  lemma U32At(bytes: Bytes, at: nat, n: nat, little: bool)
    requires n < 0x1_0000_0000 && StandsAt(bytes, at, Put32(n, little))
    ensures U32(bytes, at, little) == n
  {
    var put := Put32(n, little);
    assert bytes[at] == bytes[at..at + 4][0] && bytes[at + 1] == bytes[at..at + 4][1];
    assert bytes[at + 2] == bytes[at..at + 4][2] && bytes[at + 3] == bytes[at..at + 4][3];
    Quarters(n);
  }

  lemma Quarters(n: nat)
    requires n < 0x1_0000_0000
    ensures n == n / 0x100_0000 * 0x100_0000 + n / 0x1_0000 % 0x100 * 0x1_0000 + n / 0x100 % 0x100 * 0x100 + n % 0x100
  {
  }

  lemma I32At(bytes: Bytes, at: nat, n: int, little: bool)
    requires -0x8000_0000 <= n < 0x8000_0000 && StandsAt(bytes, at, Put32(Unsigned(n), little))
    ensures I32(bytes, at, little) == n
  {
    U32At(bytes, at, Unsigned(n), little);
  }

  lemma U64At(bytes: Bytes, at: nat, n: nat, little: bool)
    requires n < 0x1_0000_0000_0000_0000 && StandsAt(bytes, at, Put64(n, little))
    ensures U64(bytes, at, little) == n
  {
    hide U32, Put32;
    var high, low := n / 0x1_0000_0000, n % 0x1_0000_0000;
    var first, second := if little then low else high, if little then high else low;
    assert bytes[at..at + 4] == bytes[at..at + 8][..4] == Put32(first, little);
    assert bytes[at + 4..at + 8] == bytes[at..at + 8][4..] == Put32(second, little);
    U32At(bytes, at, first, little);
    U32At(bytes, at + 4, second, little);
  }

  lemma Inside(bytes: Bytes, a: nat, b: nat, c: nat, d: nat)
    requires a <= b <= |bytes| && c <= d <= b - a
    ensures bytes[a..b][c..d] == bytes[a + c..a + d]
  {
    forall i | 0 <= i < d - c ensures bytes[a..b][c..d][i] == bytes[a + c..a + d][i] { }
  }

  /** A part of what stands at a place stands at its own place. */
  lemma PartStands(bytes: Bytes, at: nat, before: Bytes, part: Bytes, after: Bytes)
    requires StandsAt(bytes, at, before + part + after)
    ensures StandsAt(bytes, at + |before|, part)
  {
    var whole := before + part + after;
    Inside(bytes, at, at + |whole|, |before|, |before| + |part|);
    assert whole[|before|..|before| + |part|] == part;
  }

  function Flat(parts: seq<Bytes>): Bytes {
    if parts == [] then [] else parts[0] + Flat(parts[1..])
  }

  /** Words of four bytes stand four bytes apart. */
  lemma {:induction false} WordAt(words: seq<Bytes>, bytes: Bytes, at: nat, k: nat)
    requires (forall i :: 0 <= i < |words| ==> |words[i]| == 4) && StandsAt(bytes, at, Flat(words)) && k < |words|
    ensures StandsAt(bytes, at + 4 * k, words[k]) && |Flat(words)| == 4 * |words|
    decreases |words|
  {
    var rest := Flat(words[1..]);
    assert Flat(words) == [] + words[0] + rest && Flat(words) == words[0] + rest + [];
    PartStands(bytes, at, [], words[0], rest);
    PartStands(bytes, at, words[0], rest, []);
    if |words| > 1 { WordAt(words[1..], bytes, at + 4, if k > 0 then k - 1 else 0); } else { assert rest == []; }
  }

  lemma ThreeStand(bytes: Bytes, at: nat, a: Bytes, b: Bytes, c: Bytes)
    requires StandsAt(bytes, at, a + b + c)
    ensures StandsAt(bytes, at, a) && StandsAt(bytes, at + |a|, b) && StandsAt(bytes, at + |a| + |b|, c)
  {
    assert a + b + c == [] + a + (b + c) && a + b + c == (a + b) + c + [];
    PartStands(bytes, at, [], a, b + c);
    PartStands(bytes, at, a, b, c);
    PartStands(bytes, at, a + b, c, []);
  }

  /** What stands one after another stands together. */
  lemma ThreeTogether(bytes: Bytes, at: nat, a: Bytes, b: Bytes, c: Bytes)
    requires StandsAt(bytes, at, a) && StandsAt(bytes, at + |a|, b) && StandsAt(bytes, at + |a| + |b|, c)
    ensures StandsAt(bytes, at, a + b + c)
  {
    var x, y, z := at + |a|, at + |a| + |b|, at + |a| + |b| + |c|;
    assert bytes[at..z] == bytes[at..x] + bytes[x..y] + bytes[y..z];
  }

  lemma SliceStands(bytes: Bytes, from: nat, to: nat)
    requires from <= to <= |bytes|
    ensures StandsAt(bytes, from, bytes[from..to]) && |bytes[from..to]| == to - from
  {
  }

  /** What is read stands there as it is written. */
  lemma U16Stands(bytes: Bytes, at: nat)
    requires at + 2 <= |bytes|
    ensures StandsAt(bytes, at, Put16(U16(bytes, at, true), true))
  {
  }

  lemma U32Stands(bytes: Bytes, at: nat)
    requires at + 4 <= |bytes|
    ensures StandsAt(bytes, at, Put32(U32(bytes, at, true), true))
  {
    var a: int, b: int, c: int, d: int := bytes[at + 3], bytes[at + 2], bytes[at + 1], bytes[at];
    QuartersOf(a, b, c, d);
    assert U32(bytes, at, true) == a * 0x100_0000 + b * 0x1_0000 + c * 0x100 + d;
    assert bytes[at..at + 4] == [d, c, b, a];
  }

  lemma QuartersOf(a: Byte, b: Byte, c: Byte, d: Byte)
    ensures var n: nat := a * 0x100_0000 + b * 0x1_0000 + c * 0x100 + d;
            n / 0x100_0000 == a && n / 0x1_0000 % 0x100 == b && n / 0x100 % 0x100 == c && n % 0x100 == d
  {
    var n: nat := a * 0x100_0000 + b * 0x1_0000 + c * 0x100 + d;
    assert n / 0x100 == a * 0x1_0000 + b * 0x100 + c;
    assert n / 0x1_0000 == a * 0x100 + b;
  }

  lemma U64Stands(bytes: Bytes, at: nat)
    requires at + 8 <= |bytes|
    ensures StandsAt(bytes, at, Put64(U64(bytes, at, true), true))
  {
    hide U32, Put32;
    U32Stands(bytes, at);
    U32Stands(bytes, at + 4);
    var n, low, high := U64(bytes, at, true), U32(bytes, at, true), U32(bytes, at + 4, true);
    assert n / 0x1_0000_0000 == high && n % 0x1_0000_0000 == low;
    ThreeTogether(bytes, at, Put32(low, true), Put32(high, true), []);
    assert Put32(low, true) + Put32(high, true) + [] == Put32(low, true) + Put32(high, true);
  }
}
