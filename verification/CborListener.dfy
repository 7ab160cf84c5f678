/** `DatabaseUtil::cborDecode`: the listener automaton that rebuilds a delta dataset from CBOR items. */
module CborListener {
  import opened Words
  import opened OrderedMap
  import opened Downsampling
  import opened Delta
  import opened Cbor

  datatype Phase = Initial | Timestamp | Value

  datatype Collected = Collected(phase: Phase, timestamps: seq<uint32>, values: seq<seq<int16>>)

  /** One callback. Integers outside `int` are not delivered to `on_integer`. */
  function Feed(c: Collected, item: Item): Collected {
    match item
    case ArrayHead(_) =>
      (match c.phase
       case Initial => c.(phase := Timestamp)
       case Timestamp => c.(phase := Value, values := c.values + [[]])
       case Value => c.(values := c.values + [[]]))
    case Integer(value) =>
      if !(-0x8000_0000 <= value < 0x8000_0000) then c
      else
        match c.phase
        case Initial => c
        case Timestamp => c.(timestamps := c.timestamps + [U32(value)])
        case Value =>
          if c.values == [] then c
          else c.(values := c.values[|c.values| - 1 := c.values[|c.values| - 1] + [Wrap16(value)]])
  }

  function FeedAll(c: Collected, items: seq<Item>): Collected {
    if items == [] then c else Feed(FeedAll(c, items[..|items| - 1]), items[|items| - 1])
  }

  const START := Collected(Initial, [], [])

  /** Transposes the columns; reading past a short column is undefined in the source. */
  function Transposed(c: Collected): (r: DeltaDataset)
    requires forall j :: 0 <= j < |c.values| ==> |c.values[j]| >= |c.timestamps|
  {
    seq(|c.timestamps|, i requires 0 <= i < |c.timestamps| =>
      Pair(c.timestamps[i], seq(|c.values|, j requires 0 <= j < |c.values| => c.values[j][i])))
  }

  class Listener {
    var timestamps: seq<uint32>
    var values: seq<seq<int16>>
    var state: Phase

    ghost function Contents(): Collected
      reads this
    {
      Collected(state, timestamps, values)
    }

    constructor ()
      ensures Contents() == START
    {
      timestamps, values, state := [], [], Initial;
    }

    method OnInteger(value: int)
      requires -0x8000_0000 <= value < 0x8000_0000
      requires state == Value ==> values != []
      modifies this
      ensures Contents() == Feed(old(Contents()), Integer(value))
    {
      match state {
        case Initial =>
        case Timestamp => timestamps := timestamps + [U32(value)];
        case Value =>
          var back := |values| - 1;
          values := values[back := values[back] + [Wrap16(value)]];
      }
    }

    method OnArray(size: nat)
      modifies this
      ensures Contents() == Feed(old(Contents()), ArrayHead(size))
    {
      match state {
        case Initial => state := Timestamp;
        case Timestamp =>
          values := values + [[]];
          state := Value;
        case Value => values := values + [[]];
      }
    }
  }

  lemma {:induction false} ValueHasColumn(items: seq<Item>)
    ensures FeedAll(START, items).phase == Value ==> FeedAll(START, items).values != []
  {
    if items != [] {
      ValueHasColumn(items[..|items| - 1]);
    }
  }

  method CborDecode(items: seq<Item>) returns (out: DeltaDataset)
    requires var c := FeedAll(START, items); forall j :: 0 <= j < |c.values| ==> |c.values[j]| >= |c.timestamps|
    ensures out == Transposed(FeedAll(START, items))
  {
    var listener := new Listener();
    for i := 0 to |items|
      invariant listener.Contents() == FeedAll(START, items[..i])
    {
      assert items[..i + 1][..i] == items[..i];
      ValueHasColumn(items[..i]);
      match items[i] {
        case ArrayHead(size) => listener.OnArray(size);
        case Integer(value) =>
          if -0x8000_0000 <= value < 0x8000_0000 {
            listener.OnInteger(value);
          }
      }
    }
    assert items[..|items|] == items;
    ghost var whole := Transposed(FeedAll(START, items));
    out := [];
    for i := 0 to |listener.timestamps|
      invariant out == whole[..i]
    {
      var row: Datapoint := [];
      assert |whole[i].value| == |listener.values|;
      for j := 0 to |listener.values|
        invariant row == whole[i].value[..j]
      {
        row := row + [listener.values[j][i]];
      }
      assert row == whole[i].value;
      out := out + [Pair(listener.timestamps[i], row)];
    }
  }

  lemma {:induction false} FeedAllConcat(c: Collected, a: seq<Item>, b: seq<Item>)
    ensures FeedAll(c, a + b) == FeedAll(FeedAll(c, a), b)
  {
    hide Feed;
    if b == [] {
      assert a + b == a;
    } else {
      var n := |b| - 1;
      FeedAllConcat(c, a, b[..n]);
      assert (a + b)[..|a| + n] == a + b[..n];
    }
  }

  lemma {:induction false} FeedTimestamps(xs: seq<int>)
    requires forall i :: 0 <= i < |xs| ==> 0 <= xs[i] < 0x8000_0000
    ensures FeedAll(Collected(Timestamp, [], []), Integers(xs)) == Collected(Timestamp, xs, [])
  {
    if xs != [] {
      var n := |xs| - 1;
      FeedTimestamps(xs[..n]);
      assert Integers(xs)[..n] == Integers(xs[..n]);
      assert xs == xs[..n] + [xs[n]];
    }
  }

  lemma FeedArrayHead(c: Collected, size: nat)
    ensures FeedAll(c, [ArrayHead(size)]) == Feed(c, ArrayHead(size))
  {
    assert [ArrayHead(size)][..0] == [];
  }

  lemma {:induction false} FeedColumn(ts: seq<uint32>, before: seq<seq<int16>>, xs: seq<int16>)
    ensures FeedAll(Collected(Value, ts, before + [[]]), Integers(xs)) == Collected(Value, ts, before + [xs])
  {
    if xs != [] {
      var n := |xs| - 1;
      FeedColumn(ts, before, xs[..n]);
      assert Integers(xs)[..n] == Integers(xs[..n]);
      assert xs == xs[..n] + [xs[n]];
      assert (before + [xs[..n]])[|before| := xs[..n] + [xs[n]]] == before + [xs];
    }
  }

  /** One whole column array. */
  lemma FeedArray(c: Collected, xs: seq<int16>)
    requires c.phase == Value || (c.phase == Timestamp && c.values == [])
    ensures FeedAll(c, ArrayItems(xs)) == Collected(Value, c.timestamps, c.values + [xs])
  {
    FeedAllConcat(c, [ArrayHead(|xs|)], Integers(xs));
    FeedArrayHead(c, |xs|);
    FeedColumn(c.timestamps, c.values, xs);
  }

  lemma {:induction false} FeedArrays(c: Collected, columns: seq<seq<int16>>)
    requires c.phase == Value || (c.phase == Timestamp && c.values == [])
    ensures var r := FeedAll(c, ArraysItems(columns));
            r.timestamps == c.timestamps && r.values == c.values + columns
    decreases |columns|
  {
    hide Feed, ArrayItems;
    if columns == [] {
      assert c.values + columns == c.values;
    } else {
      var xs, rest := columns[0], columns[1..];
      FeedAllConcat(c, ArrayItems(xs), ArraysItems(rest));
      FeedArray(c, xs);
      FeedArrays(Collected(Value, c.timestamps, c.values + [xs]), rest);
      assert c.values + [xs] + rest == c.values + columns;
    }
  }

  function Columns(data: DeltaDataset): (r: seq<seq<int16>>)
    ensures |r| == Width(data)
  {
    seq(Width(data), s requires 0 <= s < Width(data) => Column(data, s))
  }

  /** Fed the items that `cborEncode` writes, the automaton rebuilds the identical dataset. */
  lemma ListenerRebuilds(data: DeltaDataset)
    requires Uniform(data, Width(data)) && forall k :: 0 <= k < |data| ==> data[k].key < 0x8000_0000
    ensures var c := FeedAll(START, ArraysItems(Arrays(data)));
            && (forall j :: 0 <= j < |c.values| ==> |c.values[j]| >= |c.timestamps|)
            && Transposed(c) == data
  {
    if data != [] {
      FeedDataset(data);
      var c := FeedAll(START, ArraysItems(Arrays(data)));
      forall i | 0 <= i < |data| ensures Transposed(c)[i] == data[i] {
        assert |data[i].value| == |c.values|;
        assert Transposed(c)[i].value == data[i].value;
      }
    }
  }

  lemma FeedDataset(data: DeltaDataset)
    requires data != [] && forall k :: 0 <= k < |data| ==> data[k].key < 0x8000_0000
    ensures var c := FeedAll(START, ArraysItems(Arrays(data)));
            c.timestamps == Timestamps(data) && c.values == Columns(data)
  {
    hide Feed;
    var ts, columns := Timestamps(data), Columns(data);
    assert Arrays(data)[1..] == columns by {
      forall s | 0 <= s < Width(data) ensures Arrays(data)[s + 1] == columns[s] {
        assert Column(data, s) == columns[s];
      }
    }
    FeedAllConcat(START, ArrayItems(ts), ArraysItems(columns));
    FeedAllConcat(START, [ArrayHead(|ts|)], Integers(ts));
    FeedArrayHead(START, |ts|);
    assert Feed(START, ArrayHead(|ts|)) == Collected(Timestamp, [], []) by { FeedStart(|ts|); }
    FeedTimestamps(ts);
    FeedArrays(Collected(Timestamp, ts, []), columns);
    assert [] + columns == columns;
  }

  lemma FeedStart(size: nat)
    ensures Feed(START, ArrayHead(size)) == Collected(Timestamp, [], [])
  {
  }
}
