/** The web client's hand-written reader of archived days, `decodeArchivedData`. */
module CborReader {
  import opened Words
  import opened Lists

  const SLOTS_PER_DAY: nat := 288

  /**
   * `(value << 8) | b` as compiled for the web: a shift keeps 32 unsigned bits, and the shifted value has no low bits.
   */
  function Shift8(value: nat, b: byte): nat {
    U32(value * 0x100) + b
  }

  /** The width of the argument for additional information 24..27. */
  function ArgumentSize(additional: nat): nat
    requires 24 <= additional < 28
  {
    [1, 2, 4, 8][additional - 24]
  }

  function ReadBytes(bytes: seq<byte>, offset: nat, n: nat): nat
    requires offset + n <= |bytes|
  {
    if n == 0 then 0 else Shift8(ReadBytes(bytes, offset, n - 1), bytes[offset + n - 1])
  }

  function ReadLength(bytes: seq<byte>, additional: nat, offset: nat): Result<nat> {
    if additional < 24 then Ok(additional)
    else if additional >= 28 || offset + ArgumentSize(additional) > |bytes| then Err(RangeError)
    else Ok(ReadBytes(bytes, offset, ArgumentSize(additional)))
  }

  function LengthBytes(additional: nat): Result<nat> {
    if additional < 24 then Ok(0)
    else if additional <= 27 then Ok(ArgumentSize(additional))
    else Err(FormatException)
  }

  datatype IntResult = IntResult(value: int, offset: nat)

  function ReadInt(bytes: seq<byte>, offset: nat): Result<IntResult> {
    if offset >= |bytes| then Err(RangeError)
    else
      var majorType, additional := bytes[offset] / 32, bytes[offset] % 32;
      if additional >= 28 then Err(FormatException)
      else
        var size := if additional < 24 then 0 else ArgumentSize(additional);
        if offset + 1 + size > |bytes| then Err(RangeError)
        else
          var value := if additional < 24 then additional else ReadBytes(bytes, offset + 1, size);
          if majorType == 0 then Ok(IntResult(value, offset + 1 + size))
          else if majorType == 1 then Ok(IntResult(-1 - value, offset + 1 + size))
          else Err(FormatException)
  }

  datatype IntsResult = IntsResult(values: seq<int>, offset: nat)

  /** `n` integers in a row. */
  function ReadInts(bytes: seq<byte>, offset: nat, n: nat): (r: Result<IntsResult>)
    ensures r.Ok? ==> |r.value.values| == n && offset <= r.value.offset
  {
    if n == 0 then Ok(IntsResult([], offset))
    else
      match ReadInts(bytes, offset, n - 1)
      case Err(e) => Err(e)
      case Ok(before) =>
        match ReadInt(bytes, before.offset)
        case Err(e) => Err(e)
        case Ok(v) => Ok(IntsResult(before.values + [v.value], v.offset))
  }

  /** One array and the offset after it; the elements come back delta-decoded. */
  function ReadArray(bytes: seq<byte>, offset: nat): (r: Result<IntsResult>)
    requires offset < |bytes|
    ensures r.Ok? ==> offset < r.value.offset
  {
    if bytes[offset] / 32 != 4 then Err(FormatException)
    else
      var additional := bytes[offset] % 32;
      match ReadLength(bytes, additional, offset + 1)
      case Err(e) => Err(e)
      case Ok(length) =>
        match LengthBytes(additional)
        case Err(e) => Err(e)
        case Ok(size) => ReadList(bytes, offset + 1 + size, length)
  }

  function ReadList(bytes: seq<byte>, offset: nat, n: nat): (r: Result<IntsResult>)
    ensures r.Ok? ==> offset <= r.value.offset
  {
    match ReadInts(bytes, offset, n)
    case Err(e) => Err(e)
    case Ok(ints) => Ok(IntsResult(PrefixSums(ints.values), ints.offset))
  }

  function Prepend<T>(done: seq<T>, r: Result<seq<T>>): Result<seq<T>> {
    match r
    case Err(e) => Err(e)
    case Ok(rest) => Ok(done + rest)
  }

  lemma PrependLaws<T>(a: seq<T>, b: seq<T>, r: Result<seq<T>>)
    ensures Prepend([], r) == r
    ensures Prepend(a, Ok([])) == Ok(a)
    ensures Prepend(a, Prepend(b, r)) == Prepend(a + b, r)
  {
    if r.Ok? {
      assert [] + r.value == r.value;
      assert a + (b + r.value) == (a + b) + r.value;
    }
    assert a + [] == a;
  }

  /** All remaining arrays. */
  function ReadArrays(bytes: seq<byte>, offset: nat): Result<seq<seq<int>>>
    decreases |bytes| - offset
  {
    if offset >= |bytes| then Ok([])
    else
      match ReadArray(bytes, offset)
      case Err(e) => Err(e)
      case Ok(ints) => Prepend([ints.values], ReadArrays(bytes, ints.offset))
  }

  /** How many points have been used, and the value that is showing. */
  datatype Cursor = Cursor(srcIndex: nat, lastY: int)

  function Advance(timestamps: seq<int>, values: seq<int>, slot: int, c: Cursor): Result<Cursor> {
    if c.srcIndex < |timestamps| && timestamps[c.srcIndex] == slot then
      if c.srcIndex < |values| then Ok(Cursor(c.srcIndex + 1, values[c.srcIndex])) else Err(RangeError)
    else if c.srcIndex >= |timestamps| then Ok(Cursor(c.srcIndex, 0))
    else Ok(c)
  }

  /** Slots `i` and later. */
  function SpotsFrom(timestamps: seq<int>, values: seq<int>, dayStart: int, i: nat, c: Cursor): Result<seq<FlSpot>>
    decreases SLOTS_PER_DAY - i
  {
    if i >= SLOTS_PER_DAY then Ok([])
    else
      match Advance(timestamps, values, dayStart + i, c)
      case Err(e) => Err(e)
      case Ok(c') => Prepend([FlSpot(i, c'.lastY * 10)], SpotsFrom(timestamps, values, dayStart, i + 1, c'))
  }

  function Spots(timestamps: seq<int>, values: seq<int>): Result<seq<FlSpot>>
    requires timestamps != []
  {
    SpotsFrom(timestamps, values, DayStart(timestamps), 0, Cursor(0, 0))
  }

  function DayStart(timestamps: seq<int>): int
    requires timestamps != []
  {
    TruncDiv(timestamps[0], SLOTS_PER_DAY) * SLOTS_PER_DAY
  }

  function Charts(timestamps: seq<int>, columns: seq<seq<int>>): Result<seq<seq<FlSpot>>>
    requires timestamps != []
  {
    if columns == [] then Ok([])
    else
      match Charts(timestamps, columns[..|columns| - 1])
      case Err(e) => Err(e)
      case Ok(before) =>
        match Spots(timestamps, columns[|columns| - 1])
        case Err(e) => Err(e)
        case Ok(spots) => Ok(before + [spots])
  }

  function ArchivedCharts(bytes: seq<byte>): Result<seq<seq<FlSpot>>> {
    match ReadArrays(bytes, 0)
    case Err(e) => Err(e)
    case Ok(arrays) =>
      if arrays == [] || arrays[0] == [] then Ok([])
      else Charts(arrays[0], arrays[1..])
  }

  method ReadArgument(bytes: seq<byte>, offset: nat, size: nat) returns (r: Result<nat>)
    ensures r == if offset + size <= |bytes| then Ok(ReadBytes(bytes, offset, size)) else Err(RangeError)
  {
    var value: nat := 0;
    for i := 0 to size
      invariant offset + i <= |bytes| || i == 0
      invariant i > 0 || value == 0
      invariant offset + i <= |bytes| ==> value == ReadBytes(bytes, offset, i)
    {
      if offset + i >= |bytes| {
        return Err(RangeError);
      }
      value := Shift8(value, bytes[offset + i]);
    }
    if offset + size > |bytes| {
      return Err(RangeError);
    }
    return Ok(value);
  }

  method ParseInt(bytes: seq<byte>, offset: nat) returns (r: Result<IntResult>)
    ensures r == ReadInt(bytes, offset)
  {
    if offset >= |bytes| {
      return Err(RangeError);
    }
    var majorType, additional := bytes[offset] / 32, bytes[offset] % 32;
    var value, lengthBytes := additional, 0;
    if 24 <= additional <= 27 {
      lengthBytes := ArgumentSize(additional);
      var argument := ReadArgument(bytes, offset + 1, lengthBytes);
      if argument.Err? {
        return Err(RangeError);
      }
      value := argument.value;
    } else if additional > 27 {
      return Err(FormatException);
    }
    if majorType == 0 {
      return Ok(IntResult(value, offset + 1 + lengthBytes));
    }
    if majorType == 1 {
      return Ok(IntResult(-1 - value, offset + 1 + lengthBytes));
    }
    return Err(FormatException);
  }

  /** Reads `length` integers into an array, then undoes the deltas in place. */
  method FillList(bytes: seq<byte>, start: nat, length: nat) returns (r: Result<IntsResult>)
    ensures r == ReadList(bytes, start, length)
  {
    hide ReadInt, SumTo;
    var list := new int[length](_ => 0);
    var offset := start;
    for i := 0 to length
      invariant ReadInts(bytes, start, i) == Ok(IntsResult(list[..i], offset))
    {
      var val := ParseInt(bytes, offset);
      if val.Err? {
        FailureStays(bytes, start, i + 1, length);
        return Err(val.error);
      }
      list[i] := val.value.value;
      offset := val.value.offset;
      assert list[..i + 1] == list[..i] + [list[i]];
    }
    assert list[..] == list[..length];
    UndoDeltas(list);
    return Ok(IntsResult(list[..], offset));
  }

  lemma {:induction false} FailureStays(bytes: seq<byte>, offset: nat, i: nat, n: nat)
    requires i <= n && ReadInts(bytes, offset, i).Err?
    ensures ReadInts(bytes, offset, n) == ReadInts(bytes, offset, i)
  {
    if i < n {
      FailureStays(bytes, offset, i, n - 1);
    }
  }

  method FillSpots(timestamps: seq<int>, values: seq<int>, dayStart: int) returns (r: Result<seq<FlSpot>>)
    ensures r == SpotsFrom(timestamps, values, dayStart, 0, Cursor(0, 0))
  {
    var spots := new FlSpot[SLOTS_PER_DAY](_ => FlSpot(0, 0));
    var srcIndex: nat, lastY := 0, 0;
    ghost var whole := SpotsFrom(timestamps, values, dayStart, 0, Cursor(0, 0));
    PrependLaws([], [], whole);
    for i := 0 to SLOTS_PER_DAY
      invariant whole == Prepend(spots[..i], SpotsFrom(timestamps, values, dayStart, i, Cursor(srcIndex, lastY)))
    {
      ghost var done := spots[..i];
      var slot := dayStart + i;
      if srcIndex < |timestamps| && timestamps[srcIndex] == slot {
        if srcIndex >= |values| {
          return Err(RangeError);
        }
        lastY := values[srcIndex];
        srcIndex := srcIndex + 1;
      } else if srcIndex >= |timestamps| {
        lastY := 0;
      }
      spots[i] := FlSpot(i, lastY * 10);
      assert spots[..i + 1] == done + [spots[i]];
      PrependLaws(done, [spots[i]], SpotsFrom(timestamps, values, dayStart, i + 1, Cursor(srcIndex, lastY)));
    }
    assert spots[..] == spots[..SLOTS_PER_DAY];
    PrependLaws(spots[..], [], Ok([]));
    return Ok(spots[..]);
  }

  method ParseArray(bytes: seq<byte>, start: nat) returns (r: Result<IntsResult>)
    requires start < |bytes|
    ensures r == ReadArray(bytes, start)
  {
    var offset := start;
    var b := bytes[offset];
    offset := offset + 1;
    if b / 32 != 4 {
      return Err(FormatException);
    }
    var additional := b % 32;
    var length := Ok(additional);
    if additional >= 24 {
      if additional >= 28 {
        return Err(RangeError);
      }
      length := ReadArgument(bytes, offset, ArgumentSize(additional));
    }
    if length.Err? {
      return Err(length.error);
    }
    offset := offset + if additional < 24 then 0 else ArgumentSize(additional);
    r := FillList(bytes, offset, length.value);
  }

  method ParseArrays(bytes: seq<byte>) returns (r: Result<seq<seq<int>>>)
    ensures r == ReadArrays(bytes, 0)
  {
    hide ReadArray;
    var arrays: seq<seq<int>> := [];
    var offset: nat := 0;
    PrependLaws([], [], ReadArrays(bytes, 0));
    while offset < |bytes|
      invariant ReadArrays(bytes, 0) == Prepend(arrays, ReadArrays(bytes, offset))
      decreases |bytes| - offset
    {
      var ints := ParseArray(bytes, offset);
      if ints.Err? {
        return Err(ints.error);
      }
      PrependLaws(arrays, [ints.value.values], ReadArrays(bytes, ints.value.offset));
      arrays := arrays + [ints.value.values];
      offset := ints.value.offset;
    }
    PrependLaws(arrays, [], Ok([]));
    return Ok(arrays);
  }

  method DecodeArchivedData(bytes: seq<byte>) returns (r: Result<seq<seq<FlSpot>>>)
    ensures r == ArchivedCharts(bytes)
  {
    hide ReadArrays, SpotsFrom, DayStart;
    var parsed := ParseArrays(bytes);
    if parsed.Err? {
      return Err(parsed.error);
    }
    var arrays := parsed.value;
    if arrays == [] || arrays[0] == [] {
      return Ok([]);
    }
    var timestamps := arrays[0];
    var dayStart := DayStart(timestamps);
    var result: seq<seq<FlSpot>> := [];
    ghost var columns := arrays[1..];
    for s := 1 to |arrays|
      invariant Charts(timestamps, columns[..s - 1]) == Ok(result)
    {
      assert columns[..s][..s - 1] == columns[..s - 1];
      var spots := FillSpots(timestamps, arrays[s], dayStart);
      if spots.Err? {
        ChartFailureStays(timestamps, columns, s);
        return Err(spots.error);
      }
      result := result + [spots.value];
    }
    assert columns[..|columns|] == columns;
    return Ok(result);
  }

  lemma {:induction false} ChartFailureStays(timestamps: seq<int>, columns: seq<seq<int>>, s: nat)
    requires timestamps != [] && s <= |columns| && Charts(timestamps, columns[..s]).Err?
    ensures Charts(timestamps, columns) == Charts(timestamps, columns[..s])
  {
    if s < |columns| {
      assert columns[..|columns| - 1][..s] == columns[..s];
      ChartFailureStays(timestamps, columns[..|columns| - 1], s);
    } else {
      assert columns[..s] == columns;
    }
  }
}
