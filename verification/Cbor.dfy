/**
 * `DatabaseUtil::cborEncode` and `cborDecode`. The CBOR library itself is modelled by RFC 8949: integers and
 * array heads (section 3.1, major types 0, 1 and 4) in the shortest form (section 4.2.1).
 */
module Cbor {
  import opened Words
  import opened OrderedMap
  import opened Downsampling
  import opened Delta

  datatype Item = ArrayHead(size: nat) | Integer(value: int)

  /** The shortest head for argument `n` (below 2^64). */
  function Head(major: nat, n: nat): (r: seq<byte>)
    requires major < 8
    ensures 1 <= |r| <= 9
  {
    if n < 24 then [major * 32 + n]
    else if n < 0x100 then [major * 32 + 24, n]
    else if n < 0x1_0000 then [major * 32 + 25] + BigEndian(n, 2)
    else if n < 0x1_0000_0000 then [major * 32 + 26] + BigEndian(n, 4)
    else [major * 32 + 27] + BigEndian(n, 8)
  }

  /** The low `size` bytes of `n`, most significant first. */
  function BigEndian(n: nat, size: nat): (r: seq<byte>)
    ensures |r| == size
  {
    if size == 0 then [] else BigEndian(n / 0x100, size - 1) + [n % 0x100]
  }

  function EncodeItem(item: Item): (r: seq<byte>)
    ensures |r| >= 1
  {
    match item
    case ArrayHead(size) => Head(4, size)
    case Integer(value) => if value >= 0 then Head(0, value) else Head(1, -1 - value)
  }

  function EncodeItems(items: seq<Item>): seq<byte> {
    if items == [] then [] else EncodeItems(items[..|items| - 1]) + EncodeItem(items[|items| - 1])
  }

  lemma Associate(a: seq<byte>, b: seq<byte>, c: seq<byte>)
    ensures a + b + c == a + (b + c)
  {
  }

  lemma {:induction false} EncodeItemsConcat(a: seq<Item>, b: seq<Item>)
    ensures EncodeItems(a + b) == EncodeItems(a) + EncodeItems(b)
  {
    hide EncodeItem;
    if b == [] {
      assert a + b == a;
    } else {
      var n := |b| - 1;
      EncodeItemsConcat(a, b[..n]);
      var whole := a + b;
      assert whole[..|whole| - 1] == a + b[..n] && whole[|whole| - 1] == b[n];
      Associate(EncodeItems(a), EncodeItems(b[..n]), EncodeItem(b[n]));
    }
  }

  function Integers(xs: seq<int>): (r: seq<Item>)
    ensures |r| == |xs|
  {
    seq(|xs|, i requires 0 <= i < |xs| => Integer(xs[i]))
  }

  function ArrayItems(xs: seq<int>): seq<Item> {
    [ArrayHead(|xs|)] + Integers(xs)
  }

  /** A sequence of top-level arrays (RFC 8742). */
  function ArraysItems(arrays: seq<seq<int>>): seq<Item> {
    if arrays == [] then [] else ArrayItems(arrays[0]) + ArraysItems(arrays[1..])
  }

  function Timestamps(data: DeltaDataset): (r: seq<int>)
    ensures |r| == |data|
  {
    seq(|data|, k requires 0 <= k < |data| => data[k].key)
  }

  function Column(data: DeltaDataset, s: nat): (r: seq<int16>)
    ensures |r| == |data|
  {
    seq(|data|, k requires 0 <= k < |data| => At(data[k].value, s))
  }

  /** The array of timestamps followed by one array for each component. */
  function Arrays(data: DeltaDataset): seq<seq<int>> {
    if data == [] then []
    else [Timestamps(data)] + seq(Width(data), s requires 0 <= s < Width(data) => Column(data, s))
  }

  function CborEncoded(data: DeltaDataset): seq<byte> {
    EncodeItems(ArraysItems(Arrays(data)))
  }

  lemma {:induction false} ArraysItemsSnoc(arrays: seq<seq<int>>, last: seq<int>)
    ensures ArraysItems(arrays + [last]) == ArraysItems(arrays) + ArrayItems(last)
  {
    if arrays != [] {
      assert (arrays + [last])[1..] == arrays[1..] + [last];
      ArraysItemsSnoc(arrays[1..], last);
    } else {
      assert [last][1..] == [];
    }
  }

  method WriteArray(xs: seq<int>, out: seq<byte>) returns (out': seq<byte>)
    ensures out' == out + EncodeItems(ArrayItems(xs))
  {
    hide EncodeItem;
    ghost var items := ArrayItems(xs);
    out' := out + EncodeItem(ArrayHead(|xs|));
    assert items[..1] == [ArrayHead(|xs|)];
    assert items[..1][..0] == [];
    for k := 0 to |xs|
      invariant out' == out + EncodeItems(items[..k + 1])
    {
      assert items[..k + 2][..k + 1] == items[..k + 1];
      assert items[k + 1] == Integer(xs[k]);
      out' := out' + EncodeItem(Integer(xs[k]));
    }
    assert items[..|xs| + 1] == items;
  }

  method CborEncode(data: DeltaDataset) returns (out: seq<byte>)
    requires Uniform(data, Width(data))
    ensures out == CborEncoded(data)
  {
    hide ArrayItems;
    if |data| == 0 {
      return [];
    }
    ghost var arrays := Arrays(data);
    out := WriteArray(Timestamps(data), []);
    assert ArraysItems(arrays[..1]) == ArrayItems(arrays[0]) by { assert arrays[..1][1..] == []; }
    for s := 0 to |data[0].value|
      invariant out == EncodeItems(ArraysItems(arrays[..s + 1]))
    {
      out := WriteArray(Column(data, s), out);
      assert arrays[..s + 2] == arrays[..s + 1] + [Column(data, s)];
      ArraysItemsSnoc(arrays[..s + 1], Column(data, s));
      EncodeItemsConcat(ArraysItems(arrays[..s + 1]), ArrayItems(Column(data, s)));
    }
    assert arrays[..|arrays|] == arrays;
  }
}
