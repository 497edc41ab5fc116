/** Task ids: 48 bits of milliseconds and 80 random bits in an ascending base32 alphabet (section 6 of RFC 4648,
    unpadded). */
module Ids {
  import opened Model
  import opened Arithmetic

  const ALPHABET := "0123456789ABCDEFGHJKMNPQRSTVWXYZ"

  // The k lowest bytes of v, most significant first.
  function BigEndian(v: nat, k: nat): (bs: seq<Byte>)
    ensures |bs| == k
  {
    if k == 0 then [] else BigEndian(v / 256, k - 1) + [(v % 256) as Byte]
  }

  // The number bytes spell, most significant first.
  function Number(bs: seq<Byte>): nat {
    if bs == [] then 0 else Number(bs[..|bs| - 1]) * 256 + bs[|bs| - 1] as int
  }

  // The k lowest groups of five bits of v, most significant first.
  function Groups(v: nat, k: nat): (gs: seq<nat>)
    ensures |gs| == k && forall i | 0 <= i < k :: gs[i] < 32
  {
    if k == 0 then [] else Groups(v / 32, k - 1) + [v % 32]
  }

  // Sixteen bytes make 128 bits: 26 groups of five, the last filled up with two zero bits.
  function Encode(bs: seq<Byte>): (s: string)
    requires |bs| == 16
    ensures |s| == 26
  {
    var gs := Groups(Number(bs) * 4, 26);
    seq(26, i requires 0 <= i < 26 => ALPHABET[gs[i]])
  }

  // Milliseconds shifted left by 16, as a 64-bit register holds them.
  function Shifted(ms: nat): nat { ms * 65536 % 0x1_0000_0000_0000_0000 }

  /** The id of a moment and ten random bytes: the six bytes of the time, then the random ones, encoded. */
  method NewID(ms: nat, random: seq<Byte>) returns (id: string)
    requires |random| == 10
    ensures id == Encode(BigEndian(ms, 6) + random)
  {
    var b := new Byte[16];
    var v := Shifted(ms);
    ghost var stamp := BigEndian(v, 8);
    var i := 8;
    while i > 0
      invariant 0 <= i <= 8
      invariant BigEndian(v, i) == stamp[..i]
      invariant forall j | i <= j < 8 :: b[j] == stamp[j]
    {
      i := i - 1;
      assert stamp[..i + 1][..i] == stamp[..i] && stamp[..i + 1][i] == stamp[i];
      b[i] := (v % 256) as Byte;
      v := v / 256;
    }
    forall j | 0 <= j < 10 {
      b[6 + j] := random[j];
    }
    TopBytes(ms);
    assert b[..] == BigEndian(ms, 6) + random by {
      assert forall j | 0 <= j < 6 :: b[j] == stamp[j] == stamp[..6][j];
    }
    id := Encode(b[..]);
  }

  lemma {:induction false} LowBytes(u: nat, v: nat, k: nat)
    requires u % Pow(256, k) == v % Pow(256, k)
    ensures BigEndian(u, k) == BigEndian(v, k)
  {
    if k == 0 {
    } else {
      var p := Pow(256, k - 1);
      Split(u, p);
      Split(v, p);
      LowBytes(u / 256, v / 256, k - 1);
    }
  }

  lemma Split(v: nat, p: nat)
    requires p > 0
    ensures v % (256 * p) == v / 256 % p * 256 + v % 256
  {
    var q := v / 256 / p;
    assert v / 256 == p * q + v / 256 % p;
    assert v == (256 * p) * q + (v / 256 % p * 256 + v % 256) by {
      assert 256 * (p * q) == (256 * p) * q;
    }
    Remainder(v, 256 * p, q, v / 256 % p * 256 + v % 256);
  }

  lemma Remainder(v: nat, m: nat, q: nat, r: nat)
    requires m > 0 && v == m * q + r && r < m
    ensures v % m == r
  {
    assert v % m == v - m * (v / m) && 0 <= v % m < m;
    if v / m < q {
      TimesGrows(m, v / m + 1, q);
    } else if v / m > q {
      TimesGrows(m, q + 1, v / m);
    }
  }

  lemma DropTwo(v: nat, k: nat)
    ensures BigEndian(v, k + 2)[..k] == BigEndian(v / 256 / 256, k)
  {
    assert BigEndian(v, k + 2) == BigEndian(v / 256, k + 1) + [(v % 256) as Byte];
  }

  lemma SixBytes(u: nat, v: nat)
    requires u == v % 0x1_0000_0000_0000
    ensures BigEndian(u, 6) == BigEndian(v, 6)
  {
    PowAdd(256, 3, 3);
    LowBytes(u, v, 6);
  }

  lemma ShiftedTop(ms: nat)
    ensures Shifted(ms) / 256 / 256 == ms % 0x1_0000_0000_0000
  {
    var q, r := ms / 0x1_0000_0000_0000, ms % 0x1_0000_0000_0000;
    assert ms * 65536 == 0x1_0000_0000_0000_0000 * q + r * 65536;
    Remainder(ms * 65536, 0x1_0000_0000_0000_0000, q, r * 65536);
  }

  // Writing all eight bytes of the shifted time leaves its low 48 bits in the first six.
  lemma TopBytes(ms: nat)
    ensures BigEndian(Shifted(ms), 8)[..6] == BigEndian(ms, 6)
  {
    DropTwo(Shifted(ms), 6);
    ShiftedTop(ms);
    SixBytes(Shifted(ms) / 256 / 256, ms);
  }

  lemma {:induction false} GroupIs(v: nat, k: nat, i: nat)
    requires i < k
    ensures Groups(v, k)[i] == v / Pow(32, k - 1 - i) % 32
    decreases k
  {
    if i < k - 1 {
      GroupIs(v / 32, k - 1, i);
      DivideTwice(v, 32, Pow(32, k - 2 - i));
    } else {
      assert Pow(32, 0) == 1;
    }
  }

  lemma DivideTwice(v: nat, a: nat, b: nat)
    requires a > 0 && b > 0
    ensures v / a / b == v / (a * b)
  {
    var w := v / a;
    Divided(v, a);
    Divided(w, b);
    Recompose(a, b, w / b, w % b, v % a);
    Quotient(v, a * b, w / b, w % b * a + v % a);
  }

  lemma Divided(v: nat, m: nat)
    requires m > 0
    ensures v == m * (v / m) + v % m && 0 <= v % m < m
  {}

  lemma Recompose(a: nat, b: nat, q: nat, s: nat, t: nat)
    requires s < b && t < a
    ensures a * (b * q + s) + t == a * b * q + (s * a + t) && s * a + t < a * b
  {
    assert a * (b * q + s) == a * (b * q) + a * s == a * b * q + a * s;
    TimesGrows(a, s + 1, b);
    assert a * (s + 1) == a * s + a;
  }

  lemma Quotient(v: nat, m: nat, q: nat, r: nat)
    requires m > 0 && v == m * q + r && r < m
    ensures v / m == q
  {
    if v / m < q {
      TimesGrows(m, v / m + 1, q);
    } else if v / m > q {
      TimesGrows(m, q + 1, v / m);
    }
  }

  /** The characters of an id are the digits, in base 32, of the number its bytes spell, shifted left by two bits. */
  lemma EncodeSpells(bs: seq<Byte>, i: nat)
    requires |bs| == 16 && i < 26
    ensures Encode(bs)[i] == "0123456789ABCDEFGHJKMNPQRSTVWXYZ"[Number(bs) * 4 / Pow(32, 25 - i) % 32]
  {
    GroupIs(Number(bs) * 4, 26, i);
  }

  // ---- Order ----

  ghost predicate LexLess(a: seq<nat>, b: seq<nat>) {
    |a| == |b| && exists i :: 0 <= i < |a| && a[..i] == b[..i] && a[i] < b[i]
  }

  function Codes(s: string): seq<nat> { seq(|s|, i requires 0 <= i < |s| => s[i] as int) }

  // Go compares strings so, byte by byte.
  ghost predicate Precedes(a: string, b: string) { LexLess(Codes(a), Codes(b)) }

  lemma PowAdd(base: nat, a: nat, b: nat)
    ensures Pow(base, a + b) == Pow(base, a) * Pow(base, b)
  {
    if a > 0 {
      PowAdd(base, a - 1, b);
    }
  }

  lemma DivideBound(b: nat, p: nat)
    requires b < 32 * p
    ensures b / 32 < p
  {}

  lemma {:induction false} GroupsKeepOrder(a: nat, b: nat, k: nat)
    requires a < b < Pow(32, k)
    ensures LexLess(Groups(a, k), Groups(b, k))
  {
    var ga, gb := Groups(a, k), Groups(b, k);
    var ha, hb := Groups(a / 32, k - 1), Groups(b / 32, k - 1);
    assert ga == ha + [a % 32] && gb == hb + [b % 32];
    if a / 32 < b / 32 {
      DivideBound(b, Pow(32, k - 1));
      GroupsKeepOrder(a / 32, b / 32, k - 1);
      var i :| 0 <= i < k - 1 && ha[..i] == hb[..i] && ha[i] < hb[i];
      assert ga[..i] == ha[..i] && gb[..i] == hb[..i] && ga[i] < gb[i];
    } else {
      assert a / 32 == b / 32;
      assert ga[..k - 1] == ha && gb[..k - 1] == hb && ga[k - 1] < gb[k - 1];
    }
  }

  lemma {:induction false} NumberAppend(a: seq<Byte>, b: seq<Byte>)
    ensures Number(a + b) == Number(a) * Pow(256, |b|) + Number(b)
  {
    if b == [] {
      assert a + b == a;
    } else {
      var init := b[..|b| - 1];
      NumberAppend(a, init);
      assert (a + b)[..|a + b| - 1] == a + init;
      assert Number(a) * Pow(256, |b|) == Number(a) * Pow(256, |init|) * 256;
    }
  }

  lemma {:induction false} NumberBound(bs: seq<Byte>)
    ensures Number(bs) < Pow(256, |bs|)
  {
    if bs == [] {
    } else {
      NumberBound(bs[..|bs| - 1]);
    }
  }

  lemma {:induction false} BigEndianNumber(v: nat, k: nat)
    requires v < Pow(256, k)
    ensures Number(BigEndian(v, k)) == v
  {
    if k == 0 {
    } else {
      BigEndianNumber(v / 256, k - 1);
      assert BigEndian(v, k)[..k - 1] == BigEndian(v / 256, k - 1);
    }
  }

  lemma {:induction false} NumberIsInjective(a: seq<Byte>, b: seq<Byte>)
    requires |a| == |b| && Number(a) == Number(b)
    ensures a == b
  {
    if a == [] {
    } else {
      var n := |a| - 1;
      NumberIsInjective(a[..n], b[..n]);
      assert a == a[..n] + [a[n]] && b == b[..n] + [b[n]];
    }
  }

  lemma AlphabetAscends(i: nat, j: nat)
    requires i < j < 32
    ensures ALPHABET[i] < ALPHABET[j]
    decreases j - i
  {
    if i + 1 < j {
      AlphabetAscends(i, j - 1);
    }
    var k := j - 1;
    assert k == 0 || k == 1 || k == 2 || k == 3 || k == 4 || k == 5 || k == 6 || k == 7 || k == 8 || k == 9 || k == 10
        || k == 11 || k == 12 || k == 13 || k == 14 || k == 15 || k == 16 || k == 17 || k == 18 || k == 19 || k == 20
        || k == 21 || k == 22 || k == 23 || k == 24 || k == 25 || k == 26 || k == 27 || k == 28 || k == 29 || k == 30;
  }

  lemma NumbersFit(n: nat)
    requires n < Pow(256, 16)
    ensures n * 4 < Pow(32, 26)
  {
    PowAdd(256, 8, 8);
    PowAdd(256, 4, 4);
    PowAdd(32, 13, 13);
    PowAdd(32, 8, 5);
    PowAdd(32, 4, 4);
    assert Pow(256, 4) == 0x1_0000_0000 by {
      PowAdd(256, 2, 2);
    }
    assert Pow(32, 4) == 0x10_0000 by {
      PowAdd(32, 2, 2);
    }
  }

  /** Encoding keeps the order of the numbers the bytes spell. */
  lemma EncodeKeepsOrder(a: seq<Byte>, b: seq<Byte>)
    requires |a| == |b| == 16 && Number(a) < Number(b)
    ensures Precedes(Encode(a), Encode(b))
  {
    var m, n := Number(a) * 4, Number(b) * 4;
    NumberBound(b);
    NumbersFit(Number(b));
    GroupsKeepOrder(m, n, 26);
    var ga, gb := Groups(m, 26), Groups(n, 26);
    var i :| 0 <= i < 26 && ga[..i] == gb[..i] && ga[i] < gb[i];
    AlphabetAscends(ga[i], gb[i]);
    forall j | 0 <= j < i ensures Encode(a)[j] == Encode(b)[j] {
      assert ga[..i][j] == gb[..i][j];
    }
    assert Codes(Encode(a))[..i] == Codes(Encode(b))[..i];
  }

  lemma IdNumber(ms: nat, random: seq<Byte>)
    requires ms < 0x1_0000_0000_0000 && |random| == 10
    ensures Number(BigEndian(ms, 6) + random) == ms * Pow(256, 10) + Number(random)
    ensures Number(random) < Pow(256, 10)
  {
    NumberAppend(BigEndian(ms, 6), random);
    assert Pow(256, 6) == 0x1_0000_0000_0000 by {
      PowAdd(256, 3, 3);
    }
    BigEndianNumber(ms, 6);
    NumberBound(random);
  }

  /** Ids sort by time: of two ids made at different milliseconds, whatever their random bytes, the earlier comes
      first. */
  lemma IdsSortByTime(ms1: nat, ms2: nat, random1: seq<Byte>, random2: seq<Byte>)
    requires ms1 < ms2 < 0x1_0000_0000_0000 && |random1| == |random2| == 10
    ensures Precedes(Encode(BigEndian(ms1, 6) + random1), Encode(BigEndian(ms2, 6) + random2))
  {
    IdNumber(ms1, random1);
    IdNumber(ms2, random2);
    TimesGrows(Pow(256, 10), ms1 + 1, ms2);
    EncodeKeepsOrder(BigEndian(ms1, 6) + random1, BigEndian(ms2, 6) + random2);
  }

  /** An id gives back its bytes: two ids are equal only if their times and their random bytes are. */
  lemma EncodeIsInjective(a: seq<Byte>, b: seq<Byte>)
    requires |a| == |b| == 16 && Encode(a) == Encode(b)
    ensures a == b
  {
    if Number(a) < Number(b) {
      EncodeKeepsOrder(a, b);
    } else if Number(b) < Number(a) {
      EncodeKeepsOrder(b, a);
    } else {
      NumberIsInjective(a, b);
    }
  }
}
