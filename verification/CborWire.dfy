/** The bytes of one CBOR item as the server writes it and as the web client reads it (RFC 8949, section 3.1). */
module CborWire {
  import opened Words
  import opened ModArith
  import opened Cbor
  import opened CborReader
  import opened ReadBack

  /** Bytes as one number, most significant first. */
  function Value(bytes: seq<byte>): nat {
    if bytes == [] then 0 else Value(bytes[..|bytes| - 1]) * 256 + bytes[|bytes| - 1] as nat
  }

  /** How many argument bytes follow the first byte. */
  function Follow(additional: nat): nat {
    if additional < 24 then 0
    else if additional == 24 then 1
    else if additional == 25 then 2
    else if additional == 26 then 4
    else 8
  }

  lemma {:induction false} BigEndianValue(n: nat, size: nat)
    requires n < Pow256(size)
    ensures Value(BigEndian(n, size)) == n
  {
    hide Pow256;
    if size == 0 {
      NoBytes(n);
    } else {
      DivideOut(n, size);
      BigEndianValue(n / 256, size - 1);
      ValueSnoc(BigEndian(n / 256, size - 1), n % 256);
    }
  }

  lemma ValueSnoc(bytes: seq<byte>, last: byte)
    ensures Value(bytes + [last]) == Value(bytes) * 256 + last as nat
  {
    assert (bytes + [last])[..|bytes|] == bytes;
  }

  lemma Powers()
    ensures Pow256(1) == 0x100 && Pow256(2) == 0x1_0000 && Pow256(4) == 0x1_0000_0000
    ensures Pow256(8) == 0x1_0000_0000_0000_0000
  {
    assert Pow256(3) == 256 * Pow256(2);
    assert Pow256(5) == 256 * Pow256(4);
    assert Pow256(6) == 256 * Pow256(5);
    assert Pow256(7) == 256 * Pow256(6);
  }

  /** A head: major type and additional information in the first byte, then the argument in the fewest bytes. */
  lemma HeadOnWire(major: nat, n: nat)
    requires major < 8 && n < 0x1_0000_0000_0000_0000
    ensures var head := Head(major, n);
            var additional := head[0] % 32;
            && head[0] / 32 == major && additional < 28 && |head| == 1 + Follow(additional)
            && n == (if additional < 24 then additional else Value(head[1..]))
            && (additional == 24 ==> n >= 24) && (additional == 25 ==> n >= 0x100)
            && (additional == 26 ==> n >= 0x1_0000) && (additional == 27 ==> n >= 0x1_0000_0000)
  {
    Powers();
    var head := Head(major, n);
    if 24 <= n < 0x100 {
      assert head[1..] == BigEndian(n, 1) by { assert BigEndian(n, 1) == BigEndian(n / 256, 0) + [n % 256]; }
    }
    var size := |head| - 1;
    if size > 0 {
      assert head[1..] == BigEndian(n, size);
      BigEndianValue(n, size);
    }
  }

  /** A non-negative integer has major type 0 and is its argument; a negative one has 1 and the argument -1 - v. */
  lemma IntegerOnWire(v: int)
    requires -0x1_0000_0000_0000_0000 <= v < 0x1_0000_0000_0000_0000
    ensures var bytes := EncodeItem(Integer(v));
            var additional := bytes[0] % 32;
            var argument := if additional < 24 then additional else Value(bytes[1..]);
            && additional < 28 && |bytes| == 1 + Follow(additional)
            && bytes[0] / 32 == (if v >= 0 then 0 else 1)
            && v == (if bytes[0] / 32 == 0 then argument else -1 - argument)
  {
    hide Head;
    HeadOnWire(if v >= 0 then 0 else 1, if v >= 0 then v else -1 - v);
  }

  lemma ShiftIs(value: nat, total: nat, b: byte)
    requires value == total % 0x1_0000_0000
    ensures Shift8(value, b) == (total * 256 + b as nat) % 0x1_0000_0000
  {
    var k, q, r := total / 0x1_0000_0000, value / 0x100_0000, value % 0x100_0000;
    ModUnique(value * 256, 0x1_0000_0000, q, r * 256);
    ModUnique(total * 256 + b as nat, 0x1_0000_0000, k * 256 + q, r * 256 + b as nat);
  }

  lemma {:induction false} ReadBytesValue(bytes: seq<byte>, offset: nat, n: nat)
    requires offset + n <= |bytes|
    ensures ReadBytes(bytes, offset, n) == Value(bytes[offset..offset + n]) % 0x1_0000_0000
  {
    if n > 0 {
      ReadBytesValue(bytes, offset, n - 1);
      var s := bytes[offset..offset + n];
      assert s[..n - 1] == bytes[offset..offset + n - 1] && s[n - 1] == bytes[offset + n - 1];
      hide Shift8;
      ShiftIs(ReadBytes(bytes, offset, n - 1), Value(s[..n - 1]), s[n - 1]);
    }
  }

  /**
   * What the reader takes for an integer: major type 0 or 1 and an argument of any size, shortest or not, that is there
   * in full; the web's shifts keep its low 32 bits.
   */
  lemma ReadIntIff(bytes: seq<byte>, offset: nat, v: int, end: nat)
    ensures ReadInt(bytes, offset) == Ok(IntResult(v, end)) <==>
              && offset < |bytes| && bytes[offset] % 32 < 28 && bytes[offset] / 32 < 2
              && end == offset + 1 + Follow(bytes[offset] % 32) <= |bytes|
              && var additional := bytes[offset] % 32;
                 var argument := if additional < 24 then additional
                                 else Value(bytes[offset + 1..end]) % 0x1_0000_0000;
                 v == if bytes[offset] / 32 == 0 then argument else -1 - argument
  {
    hide Value, ReadBytes;
    if offset < |bytes| && bytes[offset] % 32 < 28 {
      var size := Follow(bytes[offset] % 32);
      if offset + 1 + size <= |bytes| {
        ReadBytesValue(bytes, offset + 1, size);
      }
    }
  }
}
