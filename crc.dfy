/** The two checksums of i2c_sensor.c.

    htu21_crc: CRC-8 with polynomial x^8 + x^5 + x^4 + 1 (0x31), register
    starting at 0, bits taken most significant first, no reflection and no
    final xor.

    am2321_crc: the CRC-16 of the MODBUS over Serial Line specification V1.02,
    section 6.2.2: reflected polynomial 0xA001, register starting at 0xFFFF,
    bits taken least significant first, no final xor; the check word travels
    low byte first.

    Each checksum is specified by a fold over the data (Crc8From, Crc16From);
    the two methods are the source's nested loops, proved to compute it. */
module Crc {

  // ---------------------------------------------------------------- CRC-8

  /** One bit step of the MSB-first register. */
  function Crc8Step(c: bv8): bv8
  {
    if c & 0x80 != 0 then (c << 1) ^ 0x31 else c << 1
  }

  /** n bit steps. */
  function Crc8Steps(c: bv8, n: nat): bv8
  {
    if n == 0 then c else Crc8Step(Crc8Steps(c, n - 1))
  }

  /** The register after one more data byte. */
  function Crc8Byte(crc: bv8, b: bv8): bv8
  {
    Crc8Steps(crc ^ b, 8)
  }

  /** The register after the data, starting from crc. */
  function Crc8From(crc: bv8, data: seq<bv8>): bv8
    decreases |data|
  {
    if data == [] then crc else Crc8From(Crc8Byte(crc, data[0]), data[1..])
  }

  function Crc8(data: seq<bv8>): bv8
  {
    Crc8From(0, data)
  }

  /** htu21_crc. Its byte counter is a uint8_t, so it only terminates for
      fewer than 256 bytes; the driver passes 2. */
  method Htu21Crc(data: seq<bv8>) returns (crc: bv8)
    requires |data| < 256
    ensures crc == Crc8(data)
  {
    crc := 0;
    var outer := 0;
    while outer < |data|
      invariant outer <= |data|
      invariant Crc8From(crc, data[outer..]) == Crc8(data)
    {
      crc := crc ^ data[outer];
      ghost var start := crc;
      var inner := 0;
      while inner < 8
        invariant inner <= 8
        invariant crc == Crc8Steps(start, inner)
      {
        var testbit := crc & 0x80 != 0;
        crc := crc << 1;
        if testbit {
          crc := crc ^ 0x31;
        }
        inner := inner + 1;
      }
      assert data[outer..][1..] == data[outer + 1..];
      outer := outer + 1;
    }
  }

  lemma Crc8StepInjective(a: bv8, b: bv8)
    ensures Crc8Step(a) == Crc8Step(b) ==> a == b
  {
  }

  lemma {:induction false} Crc8StepsInjective(a: bv8, b: bv8, n: nat)
    ensures Crc8Steps(a, n) == Crc8Steps(b, n) ==> a == b
  {
    if n > 0 {
      Crc8StepInjective(Crc8Steps(a, n - 1), Crc8Steps(b, n - 1));
      Crc8StepsInjective(a, b, n - 1);
    }
  }

  lemma {:induction false} Crc8StepsZero(n: nat)
    ensures Crc8Steps(0, n) == 0
  {
    if n > 0 {
      Crc8StepsZero(n - 1);
    }
  }

  /** Two different registers stay different whatever data follows. */
  lemma {:induction false} Crc8FromInjective(a: bv8, b: bv8, data: seq<bv8>)
    ensures Crc8From(a, data) == Crc8From(b, data) ==> a == b
    decreases |data|
  {
    if data != [] {
      Crc8FromInjective(Crc8Byte(a, data[0]), Crc8Byte(b, data[0]), data[1..]);
      Crc8StepsInjective(a ^ data[0], b ^ data[0], 8);
    }
  }

  lemma {:induction false} Crc8FromAppend(crc: bv8, a: seq<bv8>, b: seq<bv8>)
    ensures Crc8From(crc, a + b) == Crc8From(Crc8From(crc, a), b)
    decreases |a|
  {
    if a == [] {
      assert a + b == b;
    } else {
      assert (a + b)[0] == a[0];
      assert (a + b)[1..] == a[1..] + b;
      Crc8FromAppend(Crc8Byte(crc, a[0]), a[1..], b);
    }
  }

  /** Two different data bytes move the same register to different values. */
  lemma Crc8ByteInjective(c: bv8, x: bv8, y: bv8)
    ensures Crc8Byte(c, x) == Crc8Byte(c, y) ==> x == y
  {
    Crc8StepsInjective(c ^ (x), c ^ (y), 8);
  }

  /** The register after the data, split around the byte at k. */
  lemma Crc8FromSplit(crc: bv8, d: seq<bv8>, k: nat)
    requires k < |d|
    ensures Crc8From(crc, d) == Crc8From(Crc8Byte(Crc8From(crc, d[..k]), d[k]), d[k + 1..])
  {
    assert d == d[..k] + d[k..];
    Crc8FromAppend(crc, d[..k], d[k..]);
    assert d[k..][0] == d[k];
    assert d[k..][1..] == d[k + 1..];
  }

  /** Changing any single byte of the data changes the CRC-8, whatever the
      starting register: a corrupted byte is always caught. */
  lemma Crc8DetectsSingleByteError(crc: bv8, d: seq<bv8>, e: seq<bv8>, k: nat)
    requires |d| == |e| && k < |d| && d[k] != e[k]
    requires forall i :: 0 <= i < |d| && i != k ==> d[i] == e[i]
    ensures Crc8From(crc, d) != Crc8From(crc, e)
  {
    Crc8FromSplit(crc, d, k);
    Crc8FromSplit(crc, e, k);
    assert d[..k] == e[..k];
    assert d[k + 1..] == e[k + 1..];
    var c := Crc8From(crc, d[..k]);
    Crc8ByteInjective(c, d[k], e[k]);
    Crc8FromInjective(Crc8Byte(c, d[k]), Crc8Byte(c, e[k]), d[k + 1..]);
  }

  /** Running the CRC-8 over the data followed by its own CRC-8 leaves the
      register at 0. */
  lemma Crc8Residue(d: seq<bv8>)
    ensures Crc8(d + [Crc8(d)]) == 0
  {
    Crc8FromAppend(0, d, [Crc8(d)]);
    Crc8StepsZero(8);
  }

  // --------------------------------------------------------------- CRC-16

  /** One bit step of the reflected register. */
  function Crc16Step(c: bv16): bv16
  {
    if c & 1 != 0 then (c >> 1) ^ 0xA001 else c >> 1
  }

  function Crc16Steps(c: bv16, n: nat): bv16
  {
    if n == 0 then c else Crc16Step(Crc16Steps(c, n - 1))
  }

  function Crc16Byte(crc: bv16, b: bv8): bv16
  {
    Crc16Steps(crc ^ (b as bv16), 8)
  }

  function Crc16From(crc: bv16, data: seq<bv8>): bv16
    decreases |data|
  {
    if data == [] then crc else Crc16From(Crc16Byte(crc, data[0]), data[1..])
  }

  function Crc16(data: seq<bv8>): bv16
  {
    Crc16From(0xFFFF, data)
  }

  /** The low and the high byte of a check word, in the order they travel. */
  function Lo(w: bv16): bv8 { (w & 0xFF) as bv8 }
  function Hi(w: bv16): bv8 { (w >> 8) as bv8 }

  /** am2321_crc. Its byte counter is a uint8_t as well. */
  method Am2321Crc(data: seq<bv8>) returns (crc: bv16)
    requires |data| < 256
    ensures crc == Crc16(data)
  {
    crc := 0xFFFF;
    var outer := 0;
    while outer < |data|
      invariant outer <= |data|
      invariant Crc16From(crc, data[outer..]) == Crc16(data)
    {
      ghost var before := crc;
      crc := crc ^ (data[outer] as bv16);
      ghost var start := crc;
      var inner := 0;
      while inner < 8
        invariant inner <= 8
        invariant crc == Crc16Steps(start, inner)
      {
        ghost var previous := crc;
        var testbit := crc & 0x01 != 0;
        crc := crc >> 1;
        if testbit {
          crc := crc ^ 0xA001;
        }
        assert crc == Crc16Step(previous);
        inner := inner + 1;
      }
      assert crc == Crc16Byte(before, data[outer]);
      assert data[outer..][1..] == data[outer + 1..];
      outer := outer + 1;
    }
  }

  lemma Crc16StepInjective(a: bv16, b: bv16)
    ensures Crc16Step(a) == Crc16Step(b) ==> a == b
  {
  }

  lemma {:induction false} Crc16StepsInjective(a: bv16, b: bv16, n: nat)
    ensures Crc16Steps(a, n) == Crc16Steps(b, n) ==> a == b
  {
    if n > 0 {
      Crc16StepInjective(Crc16Steps(a, n - 1), Crc16Steps(b, n - 1));
      Crc16StepsInjective(a, b, n - 1);
    }
  }

  lemma {:induction false} Crc16FromInjective(a: bv16, b: bv16, data: seq<bv8>)
    ensures Crc16From(a, data) == Crc16From(b, data) ==> a == b
    decreases |data|
  {
    if data != [] {
      Crc16FromInjective(Crc16Byte(a, data[0]), Crc16Byte(b, data[0]), data[1..]);
      Crc16StepsInjective(a ^ (data[0] as bv16), b ^ (data[0] as bv16), 8);
    }
  }

  lemma {:induction false} Crc16FromAppend(crc: bv16, a: seq<bv8>, b: seq<bv8>)
    ensures Crc16From(crc, a + b) == Crc16From(Crc16From(crc, a), b)
    decreases |a|
  {
    if a == [] {
      assert a + b == b;
    } else {
      assert (a + b)[0] == a[0];
      assert (a + b)[1..] == a[1..] + b;
      Crc16FromAppend(Crc16Byte(crc, a[0]), a[1..], b);
    }
  }

  /** Two different data bytes move the same register to different values. */
  lemma Crc16ByteInjective(c: bv16, x: bv8, y: bv8)
    ensures Crc16Byte(c, x) == Crc16Byte(c, y) ==> x == y
  {
    Crc16StepsInjective(c ^ (x as bv16), c ^ (y as bv16), 8);
  }

  /** The register after the data, split around the byte at k. */
  lemma Crc16FromSplit(crc: bv16, d: seq<bv8>, k: nat)
    requires k < |d|
    ensures Crc16From(crc, d) == Crc16From(Crc16Byte(Crc16From(crc, d[..k]), d[k]), d[k + 1..])
  {
    assert d == d[..k] + d[k..];
    Crc16FromAppend(crc, d[..k], d[k..]);
    assert d[k..][0] == d[k];
    assert d[k..][1..] == d[k + 1..];
  }

  /** Changing any single byte of the data changes the CRC-16, whatever the
      starting register: a corrupted byte is always caught. */
  lemma Crc16DetectsSingleByteError(crc: bv16, d: seq<bv8>, e: seq<bv8>, k: nat)
    requires |d| == |e| && k < |d| && d[k] != e[k]
    requires forall i :: 0 <= i < |d| && i != k ==> d[i] == e[i]
    ensures Crc16From(crc, d) != Crc16From(crc, e)
  {
    Crc16FromSplit(crc, d, k);
    Crc16FromSplit(crc, e, k);
    assert d[..k] == e[..k];
    assert d[k + 1..] == e[k + 1..];
    var c := Crc16From(crc, d[..k]);
    Crc16ByteInjective(c, d[k], e[k]);
    Crc16FromInjective(Crc16Byte(c, d[k]), Crc16Byte(c, e[k]), d[k + 1..]);
  }

  /** A register whose low byte is clear is only shifted by the eight steps of
      a byte: none of them meets a set low bit. */
  lemma Crc16StepsShift(x: bv16)
    requires x & 0xFF == 0
    ensures Crc16Steps(x, 8) == x >> 8
  {
    assert Crc16Steps(x, 1) == x >> 1;
    assert Crc16Steps(x, 2) == x >> 2;
    assert Crc16Steps(x, 3) == x >> 3;
    assert Crc16Steps(x, 4) == x >> 4;
    assert Crc16Steps(x, 5) == x >> 5;
    assert Crc16Steps(x, 6) == x >> 6;
    assert Crc16Steps(x, 7) == x >> 7;
  }

  /** Feeding the low byte of a register back into it leaves its high byte,
      moved down. */
  lemma Crc16FeedLow(c: bv16)
    ensures Crc16Byte(c, Lo(c)) == Hi(c) as bv16
  {
    assert c ^ (Lo(c) as bv16) == c & 0xFF00;
    Crc16StepsShift(c & 0xFF00);
    assert (c & 0xFF00) >> 8 == Hi(c) as bv16;
  }

  /** Feeding a register equal to a byte that same byte clears it. */
  lemma Crc16FeedSelf(h: bv8)
    ensures Crc16Byte(h as bv16, h) == 0
  {
    assert (h as bv16) ^ (h as bv16) == 0;
    Crc16StepsShift(0);
  }

  /** The MODBUS residue: the CRC-16 over a frame followed by its own check
      word, low byte first, is 0. */
  lemma Crc16Residue(d: seq<bv8>)
    ensures Crc16(d + [Lo(Crc16(d)), Hi(Crc16(d))]) == 0
  {
    var c := Crc16(d);
    var tail := [Lo(c), Hi(c)];
    Crc16FromAppend(0xFFFF, d, tail);
    Crc16FeedLow(c);
    Crc16FeedSelf(Hi(c));
    assert tail[1..] == [Hi(c)];
    assert Crc16From(c, tail) == Crc16From(Hi(c) as bv16, [Hi(c)]);
    assert [Hi(c)][1..] == [];
    assert Crc16From(Hi(c) as bv16, [Hi(c)]) == Crc16From(0, []);
  }
}
