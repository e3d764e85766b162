/**
 The Protocol Buffers wire format ("Base 128 Varints" and "Message Structure" of its encoding specification),
 without groups: what the protowire package reads and writes, and the server's own varint loops (ugc_dessins.go).
 */
module Protobuf {
  import opened Wrappers

  // ---- varints ----

  function Varint(v: nat): (r: Octets)
    ensures |r| >= 1
  {
    if v < 0x80 then [v] else [v % 0x80 + 0x80] + Varint(v / 0x80)
  }

  /** What the bytes from the k-th on can still add: ten bytes hold 64 bits, one of them in the last. */
  function Plafond(k: nat): (p: nat)
    requires k <= 9
    ensures p >= 2
    decreases 9 - k
  {
    if k == 9 then 2 else 0x80 * Plafond(k + 1)
  }

  const DEUX64 := 0x1_0000_0000_0000_0000

  lemma TenBytesHold64Bits()
    ensures Plafond(0) == DEUX64
  {
  }

  datatype Lu = Lu(v: nat, n: nat)

  function Bas(o: int): (r: nat)
    ensures r < 0x80
  {
    o % 0x80
  }

  /** ConsumeVarint from its k-th byte: the value, and how many bytes it takes; none if cut short or over 64 bits. */
  function ConsumeVarint(b: Octets, k: nat): (r: Option<Lu>)
    requires k <= 9
    ensures r.Some? ==> 1 <= r.value.n <= |b| && r.value.v < Plafond(k)
    decreases |b|
  {
    if b == [] then None
    else if k == 9 then (if b[0] < 2 then Some(Lu(b[0], 1)) else None)
    else if b[0] < 0x80 then Some(Lu(b[0], 1))
    else
      match ConsumeVarint(b[1..], k + 1)
      case None => None
      case Some(l) => Some(Lu(Bas(b[0]) + 0x80 * l.v, l.n + 1))
  }

  /** The varint at the front is read the same whatever follows. */
  lemma {:induction false} VarintStays(b: Octets, c: Octets, k: nat)
    requires k <= 9 && ConsumeVarint(b, k).Some?
    requires ConsumeVarint(b, k).value.n <= |c| && c[..ConsumeVarint(b, k).value.n] == b[..ConsumeVarint(b, k).value.n]
    ensures ConsumeVarint(c, k) == ConsumeVarint(b, k)
    decreases 9 - k
  {
    var n := ConsumeVarint(b, k).value.n;
    assert c[0] == c[..n][0] == b[0];
    if k < 9 && b[0] >= 0x80 {
      assert c[1..][..n - 1] == c[..n][1..] == b[1..][..n - 1];
      VarintStays(b[1..], c[1..], k + 1);
    }
  }

  lemma {:induction false} VarintBack(v: nat, suite: Octets, k: nat)
    requires k <= 9 && v < Plafond(k)
    ensures ConsumeVarint(Varint(v) + suite, k) == Some(Lu(v, |Varint(v)|))
    decreases 9 - k
  {
    var b := Varint(v) + suite;
    if v >= 0x80 {
      assert k < 9;
      VarintBack(v / 0x80, suite, k + 1);
      assert b[1..] == Varint(v / 0x80) + suite;
    }
  }

  /** Every 64-bit value is read back from its encoding, whatever follows. */
  lemma VarintRoundTrip(v: nat, suite: Octets)
    requires v < DEUX64
    ensures ConsumeVarint(Varint(v) + suite, 0) == Some(Lu(v, |Varint(v)|))
  {
    TenBytesHold64Bits();
    VarintBack(v, suite, 0);
  }

  /** Base 128, the least significant digit first. */
  function Valeur128(b: Octets): nat {
    if b == [] then 0 else Bas(b[0]) + 0x80 * Valeur128(b[1..])
  }

  /** n bytes at the front that are one varint of 64 bits: a high bit on each but the last, at most ten of them. */
  predicate EstVarint(b: Octets, n: nat, k: nat) {
    && 1 <= n <= |b| && n + k <= 10 && (forall i :: 0 <= i < n - 1 ==> b[i] >= 0x80) && b[n - 1] < 0x80
    && (n + k == 10 ==> b[n - 1] < 2)
  }

  /** A read succeeds exactly on such bytes, and gives the number their low seven bits write in base 128. */
  lemma {:induction false} ReadIff(b: Octets, k: nat, n: nat)
    requires k <= 9
    ensures ConsumeVarint(b, k).Some? && ConsumeVarint(b, k).value.n == n <==> EstVarint(b, n, k)
    ensures EstVarint(b, n, k) ==> ConsumeVarint(b, k) == Some(Lu(Valeur128(b[..n]), n))
    decreases |b|
  {
    if b != [] && k < 9 && b[0] >= 0x80 && n > 1 {
      ReadIff(b[1..], k + 1, n - 1);
      assert EstVarint(b, n, k) <==> EstVarint(b[1..], n - 1, k + 1);
      assert n <= |b| ==> b[..n][1..] == b[1..][..n - 1];
    } else if b != [] && n == 1 {
      assert b[..1][1..] == [];
    }
  }

  /** What is written is the shortest: the digits of the number, a high bit on each but the last, which is not zero. */
  lemma {:induction false} WrittenDigits(v: nat)
    ensures Valeur128(Varint(v)) == v
    ensures var b := Varint(v); (forall i :: 0 <= i < |b| - 1 ==> b[i] >= 0x80) && b[|b| - 1] < 0x80
    ensures |Varint(v)| > 1 ==> Varint(v)[|Varint(v)| - 1] != 0
  {
    if v >= 0x80 {
      WrittenDigits(v / 0x80);
      assert Varint(v)[1..] == Varint(v / 0x80);
      assert Bas(v % 0x80 + 0x80) == v % 0x80;
    }
  }

  /** The example of the encoding specification: 150 is written 96 01. */
  lemma OneHundredFifty()
    ensures Varint(150) == [0x96, 0x01]
  {
    assert Varint(1) == [1];
  }

  /** The encoder is a loop that shifts its value. */
  method MetVarintUgc(valeur: nat) returns (out: Octets)
    requires valeur < DEUX64
    ensures out == Varint(valeur)
  {
    var v := valeur;
    out := [];
    while v >= 0x80
      invariant out + Varint(v) == Varint(valeur)
      decreases v
    {
      var o: Octet := v % 0x80 + 0x80;
      Associe(out, [o], Varint(v / 0x80));
      out := out + [o];
      v := v / 0x80;
    }
    out := out + [v];
  }

  /** The server's own decoder keeps the low bit of a tenth byte and drops the rest, instead of refusing it. */
  function LitUgc(b: Octets, k: nat): (r: Option<Lu>)
    requires k <= 9
    ensures r.Some? ==> 1 <= r.value.n <= |b| && r.value.v < Plafond(k)
    decreases |b|
  {
    if b == [] then None
    else if b[0] < 0x80 then Some(Lu(if k == 9 then b[0] % 2 else b[0], 1))
    else if k == 9 then None
    else
      match LitUgc(b[1..], k + 1)
      case None => None
      case Some(l) => Some(Lu(Bas(b[0]) + 0x80 * l.v, l.n + 1))
  }

  /** Nine continuation bytes, then a tenth that overflows 64 bits. */
  predicate Deborde(b: Octets, k: nat)
    requires k <= 9
    decreases |b|
  {
    if b == [] then false
    else if k == 9 then 2 <= b[0] < 0x80
    else b[0] >= 0x80 && Deborde(b[1..], k + 1)
  }

  /** The two decoders agree on exactly the inputs that do not overflow. */
  lemma {:induction false} DecodersAgreeIff(b: Octets, k: nat)
    requires k <= 9
    ensures LitUgc(b, k) == ConsumeVarint(b, k) <==> !Deborde(b, k)
    ensures Deborde(b, k) ==> LitUgc(b, k).Some? && ConsumeVarint(b, k).None?
    decreases 9 - k
  {
    if b != [] && k < 9 && b[0] >= 0x80 {
      DecodersAgreeIff(b[1..], k + 1);
    }
  }

  lemma DigitThenRemainder(a: nat, x: nat, p: nat)
    requires a < 0x80 && p > 0
    ensures a + 0x80 * (x % p) == (a + 0x80 * x) % (0x80 * p)
  {
    var q, r := x / p, x % p;
    assert a + 0x80 * x == (0x80 * p) * q + (a + 0x80 * r);
    assert a + 0x80 * r < 0x80 * p;
    RemainderIs(a + 0x80 * x, 0x80 * p, q, a + 0x80 * r);
  }

  lemma RemainderIs(n: nat, d: nat, q: nat, r: nat)
    requires d > 0 && r < d && n == d * q + r
    ensures n % d == r
  {
    SameQuotient(d, q, r, n / d, n % d);
  }

  lemma {:induction false} Times(d: nat, a: nat, b: nat)
    requires a < b
    ensures d * a + d <= d * b
  {
    assert d * b == d * (b - 1) + d;
    if a < b - 1 {
      Times(d, a, b - 1);
    }
  }

  lemma SameQuotient(d: nat, q: nat, r: nat, p: nat, s: nat)
    requires r < d && s < d && d * q + r == d * p + s
    ensures r == s
  {
    if q < p {
      Times(d, q, p);
      assert false;
    } else if p < q {
      Times(d, p, q);
      assert false;
    }
  }

  /** What the server's decoder reads, when it reads anything, is the number the bytes write, less what 64 bits cannot hold. */
  lemma {:induction false} LooseReadIs(b: Octets, k: nat)
    requires k <= 9
    ensures LitUgc(b, k).Some? ==>
              LitUgc(b, k).value.n <= |b| && LitUgc(b, k).value.v == Valeur128(b[..LitUgc(b, k).value.n]) % Plafond(k)
    decreases |b|
  {
    if LitUgc(b, k).Some? {
      var n := LitUgc(b, k).value.n;
      assert b[..n][1..] == b[1..][..n - 1];
      if b[0] >= 0x80 {
        LooseReadIs(b[1..], k + 1);
        DigitThenRemainder(Bas(b[0]), Valeur128(b[1..][..n - 1]), Plafond(k + 1));
      } else {
        assert Valeur128(b[..1]) == b[0];
      }
    }
  }

  /** 0x80 to the power k: the weight of the k-th byte. */
  function Poids(k: nat): nat {
    if k == 0 then 1 else 0x80 * Poids(k - 1)
  }

  lemma {:induction false} PoidsFois(k: nat)
    requires k <= 9
    ensures Poids(k) * Plafond(k) == DEUX64
    decreases 9 - k
  {
    if k == 9 {
      assert Poids(3) == 0x20_0000;
      assert Poids(6) == 0x400_0000_0000;
      assert Poids(9) == 0x8000_0000_0000_0000;
    } else {
      PoidsFois(k + 1);
      assert Poids(k + 1) == 0x80 * Poids(k);
      assert Poids(k) * (0x80 * Plafond(k + 1)) == (0x80 * Poids(k)) * Plafond(k + 1);
    }
  }

  /** What is known of the whole number once k bytes, worth v, have been read. */
  function Suite(v: nat, k: nat, r: Option<Lu>): Option<Lu> {
    match r
    case None => None
    case Some(l) => Some(Lu(v + Poids(k) * l.v, k + l.n))
  }

  /** `v |= uint64(c&0x7f) << d`, in 64 bits. */
  function Ajoute(v: nat, k: nat, c: Octet): nat {
    (v + Poids(k) * Bas(c)) % DEUX64
  }

  lemma WeightBelow64Bits(k: nat)
    requires k <= 9
    ensures 2 * Poids(k) <= DEUX64
  {
    PoidsFois(k);
  }

  lemma WeightFits(v: nat, k: nat, c: Octet)
    requires k < 9 && v < Poids(k)
    ensures Ajoute(v, k, c) == v + Poids(k) * Bas(c) < Poids(k + 1)
  {
    var p, q := Poids(k), Bas(c);
    WeightBelow64Bits(k + 1);
    assert Poids(k + 1) == 0x80 * p;
    var x := v + p * q;
    assert 0 <= x < 0x80 * p;
    assert x % DEUX64 == x;
  }

  lemma TenthByte(v: nat, c: Octet)
    requires v < Poids(9) && c < 0x80
    ensures Ajoute(v, 9, c) == v + Poids(9) * (c % 2)
  {
    PoidsFois(9);
    assert Poids(9) == 0x8000_0000_0000_0000;
    var q: int, r: int := c / 2, c % 2;
    assert v + 0x8000_0000_0000_0000 * c == q * DEUX64 + (v + 0x8000_0000_0000_0000 * r);
  }

  lemma OneMoreByte(v: nat, k: nat, c: nat, l: Lu)
    ensures v + Poids(k) * (c + 0x80 * l.v) == (v + Poids(k) * c) + Poids(k + 1) * l.v
  {
    assert Poids(k + 1) == 0x80 * Poids(k);
    assert Poids(k) * (c + 0x80 * l.v) == Poids(k) * c + (0x80 * Poids(k)) * l.v;
  }

  lemma SuiteStep(v: nat, k: nat, c: nat, l: Lu)
    ensures Suite(v, k, Some(Lu(c + 0x80 * l.v, l.n + 1))) == Suite(v + Poids(k) * c, k + 1, Some(l))
  {
    OneMoreByte(v, k, c, l);
  }

  lemma ContinuationStep(b: Octets, v: nat, k: nat)
    requires b != [] && k < 9 && b[0] >= 0x80
    ensures Suite(v, k, LitUgc(b, k)) == Suite(v + Poids(k) * Bas(b[0]), k + 1, LitUgc(b[1..], k + 1))
  {
    match LitUgc(b[1..], k + 1)
    case None =>
    case Some(l) => SuiteStep(v, k, Bas(b[0]), l);
  }

  /** One turn of the decoding loop. */
  lemma LoopStep(b: Octets, v: nat, k: nat)
    requires b != [] && k <= 9 && v < Poids(k)
    ensures b[0] < 0x80 ==> Suite(v, k, LitUgc(b, k)) == Some(Lu(Ajoute(v, k, b[0]), k + 1))
    ensures b[0] >= 0x80 && k == 9 ==> Suite(v, k, LitUgc(b, k)) == None
    ensures b[0] >= 0x80 && k < 9 ==>
              && Suite(v, k, LitUgc(b, k)) == Suite(Ajoute(v, k, b[0]), k + 1, LitUgc(b[1..], k + 1))
              && Ajoute(v, k, b[0]) < Poids(k + 1)
  {
    var c := b[0];
    if k < 9 {
      WeightFits(v, k, c);
      if c >= 0x80 {
        ContinuationStep(b, v, k);
      } else {
        assert LitUgc(b, k) == Some(Lu(c, 1)) && Bas(c) == c;
      }
    } else if c < 0x80 {
      TenthByte(v, c);
      assert LitUgc(b, k) == Some(Lu(c % 2, 1));
    }
  }

  /** The decoder is a loop over an index, adding each byte's bits at its weight, in 64 bits. */
  method LitVarintUgc(b: Octets, i: nat) returns (v: nat, j: nat, ok: bool)
    requires i <= |b|
    ensures ok <==> LitUgc(b[i..], 0).Some?
    ensures ok ==> v == LitUgc(b[i..], 0).value.v && j == i + LitUgc(b[i..], 0).value.n
  {
    var k: nat := 0;
    v, j := 0, i;
    while j < |b|
      invariant j == i + k <= |b| && k <= 9 && v < Poids(k)
      invariant LitUgc(b[i..], 0) == Suite(v, k, LitUgc(b[j..], k))
      decreases |b| - j
    {
      var c := b[j];
      LoopStep(b[j..], v, k);
      assert b[j..][1..] == b[j + 1..];
      j := j + 1;
      v := Ajoute(v, k, c);
      if c < 0x80 {
        return v, j, true;
      }
      if k == 9 {
        return 0, j, false;
      }
      k := k + 1;
    }
    return 0, j, false;
  }
}
