/** The web client's reader undoes the server's `cborEncode`, byte for byte. */
module ReadBack {
  import opened Words
  import opened OrderedMap
  import opened Downsampling
  import opened Delta
  import opened Cbor
  import opened CborReader
  import opened Lists

  /** `chunk` occupies `bytes` from `offset` on. */
  ghost predicate Stands(bytes: seq<byte>, offset: nat, chunk: seq<byte>) {
    offset + |chunk| <= |bytes| && bytes[offset..offset + |chunk|] == chunk
  }

  lemma StandsSplit(bytes: seq<byte>, offset: nat, a: seq<byte>, b: seq<byte>)
    requires Stands(bytes, offset, a + b)
    ensures Stands(bytes, offset, a) && Stands(bytes, offset + |a|, b)
  {
    var whole := bytes[offset..offset + |a + b|];
    assert a == whole[..|a|] && b == whole[|a|..];
  }

  lemma StandsAt(bytes: seq<byte>, offset: nat, chunk: seq<byte>, i: nat)
    requires Stands(bytes, offset, chunk) && i < |chunk|
    ensures bytes[offset + i] == chunk[i]
  {
    assert bytes[offset..offset + |chunk|][i] == chunk[i];
  }

  function Pow256(k: nat): (r: nat)
    ensures r >= 1
  {
    if k == 0 then 1 else 0x100 * Pow256(k - 1)
  }

  lemma NoBytes(n: nat)
    requires n < Pow256(0)
    ensures n == 0
  {
  }

  lemma ShiftBack(n: nat)
    requires n < 0x1_0000_0000
    ensures n / 0x100 < 0x1_0000_0000 && n % 0x100 < 0x100 && Shift8(n / 0x100, n % 0x100) == n
  {
  }

  lemma DivideOut(n: nat, size: nat)
    requires size > 0 && n < Pow256(size)
    ensures n / 0x100 < Pow256(size - 1)
  {
    assert Pow256(size) == 0x100 * Pow256(size - 1);
  }

  lemma {:induction false} ReadBytesBack(bytes: seq<byte>, offset: nat, n: nat, size: nat)
    requires Stands(bytes, offset, BigEndian(n, size)) && n < Pow256(size) && n < 0x1_0000_0000
    ensures ReadBytes(bytes, offset, size) == n
  {
    hide Shift8, Pow256, Stands;
    if size == 0 {
      NoBytes(n);
    } else {
      ShiftBack(n);
      DivideOut(n, size);
      assert BigEndian(n, size) == BigEndian(n / 0x100, size - 1) + [n % 0x100];
      StandsSplit(bytes, offset, BigEndian(n / 0x100, size - 1), [n % 0x100]);
      StandsAt(bytes, offset + size - 1, [n % 0x100], 0);
      ReadBytesBack(bytes, offset, n / 0x100, size - 1);
    }
  }

  /** Additional information of the shortest head. */
  function Additional(n: nat): nat {
    if n < 24 then n else if n < 0x100 then 24 else if n < 0x1_0000 then 25 else 26
  }

  lemma HeadShape(major: nat, n: nat)
    requires major < 8 && n < 0x1_0000_0000
    ensures Head(major, n)[0] / 32 == major && Head(major, n)[0] % 32 == Additional(n)
    ensures n >= 24 ==> var size := ArgumentSize(Additional(n));
                        Head(major, n) == [Head(major, n)[0]] + BigEndian(n, size) && n < Pow256(size)
    ensures n < 24 ==> |Head(major, n)| == 1
  {
    assert Pow256(1) == 0x100;
    assert Pow256(2) == 0x1_0000 by { assert Pow256(2) == 0x100 * Pow256(1); }
    assert Pow256(3) == 0x100_0000 by { assert Pow256(3) == 0x100 * Pow256(2); }
    assert Pow256(4) == 0x1_0000_0000 by { assert Pow256(4) == 0x100 * Pow256(3); }
    if 24 <= n < 0x100 {
      assert BigEndian(n, 1) == [n];
    }
  }

  lemma ReadHead(bytes: seq<byte>, offset: nat, major: nat, n: nat)
    requires major < 8 && n < 0x1_0000_0000 && Stands(bytes, offset, Head(major, n))
    ensures bytes[offset] / 32 == major && bytes[offset] % 32 == Additional(n)
    ensures n >= 24 ==> var size := ArgumentSize(Additional(n));
                        && |Head(major, n)| == 1 + size && offset + 1 + size <= |bytes|
                        && ReadBytes(bytes, offset + 1, size) == n
    ensures n < 24 ==> |Head(major, n)| == 1
  {
    HeadShape(major, n);
    StandsAt(bytes, offset, Head(major, n), 0);
    if n >= 24 {
      var size := ArgumentSize(Additional(n));
      StandsSplit(bytes, offset, [Head(major, n)[0]], BigEndian(n, size));
      ReadBytesBack(bytes, offset + 1, n, size);
    }
  }

  lemma ReadIntBack(bytes: seq<byte>, offset: nat, v: int)
    requires -0x1_0000_0000 <= v < 0x1_0000_0000 && Stands(bytes, offset, EncodeItem(Integer(v)))
    ensures ReadInt(bytes, offset) == Ok(IntResult(v, offset + |EncodeItem(Integer(v))|))
  {
    hide Head, ReadBytes;
    if v >= 0 {
      ReadHead(bytes, offset, 0, v);
    } else {
      ReadHead(bytes, offset, 1, -1 - v);
    }
  }

  ghost predicate InRange(xs: seq<int>) {
    |xs| < 0x1_0000_0000 && forall i :: 0 <= i < |xs| ==> -0x1_0000_0000 <= xs[i] < 0x1_0000_0000
  }

  lemma {:induction false} ReadIntsBack(bytes: seq<byte>, offset: nat, xs: seq<int>)
    requires InRange(xs) && Stands(bytes, offset, EncodeItems(Integers(xs)))
    ensures ReadInts(bytes, offset, |xs|) == Ok(IntsResult(xs, offset + |EncodeItems(Integers(xs))|))
  {
    hide EncodeItem, ReadInt;
    if xs != [] {
      var n := |xs| - 1;
      assert Integers(xs)[..n] == Integers(xs[..n]);
      var before := EncodeItems(Integers(xs[..n]));
      StandsSplit(bytes, offset, before, EncodeItem(Integer(xs[n])));
      ReadIntsBack(bytes, offset, xs[..n]);
      ReadIntBack(bytes, offset + |before|, xs[n]);
      assert xs == xs[..n] + [xs[n]];
    }
  }

  lemma ReadArrayBack(bytes: seq<byte>, offset: nat, xs: seq<int>)
    requires InRange(xs) && Stands(bytes, offset, EncodeItems(ArrayItems(xs))) && offset < |bytes|
    ensures ReadArray(bytes, offset) == Ok(IntsResult(PrefixSums(xs), offset + |EncodeItems(ArrayItems(xs))|))
    ensures |EncodeItems(ArrayItems(xs))| > 0
  {
    hide Head, ReadBytes, ReadInts, EncodeItems, PrefixSums, Integers;
    EncodeItemsConcat([ArrayHead(|xs|)], Integers(xs));
    EncodeHead(|xs|);
    StandsSplit(bytes, offset, Head(4, |xs|), EncodeItems(Integers(xs)));
    ReadHead(bytes, offset, 4, |xs|);
    ReadIntsBack(bytes, offset + |Head(4, |xs|)|, xs);
  }

  lemma EncodeHead(size: nat)
    ensures EncodeItems([ArrayHead(size)]) == Head(4, size)
  {
    assert [ArrayHead(size)][..0] == [];
  }

  function AllPrefixSums(arrays: seq<seq<int>>): (r: seq<seq<int>>)
    ensures |r| == |arrays|
  {
    seq(|arrays|, a requires 0 <= a < |arrays| => PrefixSums(arrays[a]))
  }

  lemma NextArray(bytes: seq<byte>, offset: nat, xs: seq<int>, others: seq<byte>)
    requires InRange(xs) && offset <= |bytes| && bytes[offset..] == EncodeItems(ArrayItems(xs)) + others
    ensures var next := offset + |EncodeItems(ArrayItems(xs))|;
            && next <= |bytes| && bytes[next..] == others
            && ReadArrays(bytes, offset) == Prepend([PrefixSums(xs)], ReadArrays(bytes, next))
  {
    hide EncodeItems, ArrayItems, InRange, ReadArray, PrefixSums;
    var first := EncodeItems(ArrayItems(xs));
    assert bytes[offset..offset + |first|] == bytes[offset..][..|first|] == first;
    assert bytes[offset + |first|..] == bytes[offset..][|first|..] == others;
    ArrayNotEmpty(xs);
    ReadArrayBack(bytes, offset, xs);
  }

  lemma {:induction false} ReadArraysBack(bytes: seq<byte>, offset: nat, arrays: seq<seq<int>>)
    requires forall a :: 0 <= a < |arrays| ==> InRange(arrays[a])
    requires offset <= |bytes| && bytes[offset..] == EncodeItems(ArraysItems(arrays))
    ensures ReadArrays(bytes, offset) == Ok(AllPrefixSums(arrays))
    decreases |arrays|
  {
    hide ReadArray, ArrayItems, ArraysItems, PrefixSums, InRange, EncodeItems, ReadArrays, AllPrefixSums;
    if arrays == [] {
      NoArrays(bytes, offset);
    } else {
      var xs, rest := arrays[0], arrays[1..];
      ArraysItemsCons(arrays);
      EncodeItemsConcat(ArrayItems(xs), ArraysItems(rest));
      NextArray(bytes, offset, xs, EncodeItems(ArraysItems(rest)));
      ReadArraysBack(bytes, offset + |EncodeItems(ArrayItems(xs))|, rest);
      AllPrefixSumsCons(xs, rest);
      assert arrays == [xs] + rest;
    }
  }

  lemma NoArrays(bytes: seq<byte>, offset: nat)
    requires offset <= |bytes| && bytes[offset..] == EncodeItems(ArraysItems([]))
    ensures ReadArrays(bytes, offset) == Ok(AllPrefixSums([]))
  {
    hide ReadArray;
    assert |bytes[offset..]| == 0;
  }

  lemma ArraysItemsCons(arrays: seq<seq<int>>)
    requires arrays != []
    ensures ArraysItems(arrays) == ArrayItems(arrays[0]) + ArraysItems(arrays[1..])
  {
    hide ArrayItems;
  }

  lemma AllPrefixSumsCons(xs: seq<int>, rest: seq<seq<int>>)
    ensures AllPrefixSums([xs] + rest) == [PrefixSums(xs)] + AllPrefixSums(rest)
  {
    hide PrefixSums;
  }

  lemma ArrayNotEmpty(xs: seq<int>)
    ensures |EncodeItems(ArrayItems(xs))| > 0
  {
    EncodeItemsConcat([ArrayHead(|xs|)], Integers(xs));
    assert [ArrayHead(|xs|)][..0] == [];
  }

  /**
   * The reader consumes everything `cborEncode` wrote and recovers the running sums of the timestamps
   * and of every component.
   */
  lemma ReaderUndoesWriter(data: DeltaDataset)
    requires Uniform(data, Width(data)) && |data| < 0x1_0000_0000
    requires forall k :: 0 <= k < |data| ==> data[k].key < 0x1_0000_0000
    ensures ReadArrays(CborEncoded(data), 0) == Ok(AllPrefixSums(Arrays(data)))
  {
    var arrays := Arrays(data);
    forall a | 0 <= a < |arrays| ensures InRange(arrays[a]) {
      if a > 0 {
        assert arrays[a] == Column(data, a - 1);
      }
    }
    assert CborEncoded(data)[0..] == CborEncoded(data);
    ReadArraysBack(CborEncoded(data), 0, arrays);
  }
}
