/** The database: raw tables with change-only recording, and archived days computed on demand. */
module Database {
  import opened Words
  import opened OrderedMap
  import opened Downsampling
  import opened Recorder
  import opened MapNames
  import Archive

  function Table<V>(tables: map<string, Rows<V>>, name: string): Rows<V> {
    if name in tables then tables[name] else []
  }

  /** The rows of a day can be downsampled: datapoints of unequal width are undefined in the source. */
  ghost predicate Readable(rows: Dataset, day: nat) {
    Sorted(rows) && Sorted(OfDay(rows, day)) && Uniform(OfDay(rows, day), Width(OfDay(rows, day)))
  }

  /** The archive after a day has been archived, whatever it held for that day before. */
  function Archived(rows: Dataset, days: Rows<seq<byte>>, day: nat, factor: nat): Rows<seq<byte>>
    requires Readable(rows, day) && factor > 0
  {
    var bytes := Archive.ArchiveBytes(OfDay(rows, day), factor);
    if bytes == [] then days else Put(days, day, bytes)
  }

  /** The archive after a request: an unarchived day that has passed and has rows is archived. */
  function ArchiveAfter(rows: Dataset, days: Rows<seq<byte>>, day: nat, factor: nat, today: nat): Rows<seq<byte>>
    requires Readable(rows, day) && factor > 0
  {
    if Get(days, day, []) != [] || day >= today then days else Archived(rows, days, day, factor)
  }

  class Database {
    var tables: map<string, Dataset>
    var archives: map<string, Rows<seq<byte>>>
    var lastValues: map<(string, string), Datapoint>

    constructor ()
      ensures Valid() && tables == map[] && archives == map[] && lastValues == map[]
    {
      tables, archives, lastValues := map[], map[], map[];
    }

    ghost predicate Valid()
      reads this
    {
      forall name :: name in tables ==> Sorted(tables[name])
    }

    function Last(id: string, property: string): Datapoint
      reads this
    {
      if (id, property) in lastValues then lastValues[(id, property)] else []
    }

    function Raw(id: string, property: string): Dataset
      reads this
    {
      Table(tables, MapName(Series(id, property, 0)))
    }

    /** What is known of one property: its rows and the cached last value. */
    function Of(id: string, property: string): Recording
      reads this
    {
      Recording(Raw(id, property), Last(id, property))
    }

    function ArchiveOf(s: Series): Rows<seq<byte>>
      reads this
    {
      Table(archives, MapName(s))
    }

    method PutDatapoint(id: string, property: string, timestamp: uint32, datapoint: Datapoint)
      requires Valid() && Identifier(property)
      modifies this
      ensures Valid() && archives == old(archives)
      ensures Of(id, property) == Recorded(old(Of(id, property)), Record(timestamp, datapoint))
      ensures forall i, p :: Identifier(p) && (i, p) != (id, property) ==> Of(i, p) == old(Of(i, p))
    {
      hide MapName, Put;
      if Last(id, property) == datapoint {
        return;
      }
      lastValues := lastValues[(id, property) := datapoint];
      var name := MapName(Series(id, property, 0));
      PutMembers(Table(tables, name), timestamp, datapoint);
      tables := tables[name := Put(Table(tables, name), timestamp, datapoint)];
      forall i, p | Identifier(p) && (i, p) != (id, property) ensures Of(i, p) == old(Of(i, p)) {
        OtherName(Series(i, p, 0), Series(id, property, 0));
      }
    }

    method RawData(id: string, property: string, day: nat) returns (data: Dataset)
      requires Valid()
      ensures data == OfDay(Raw(id, property), day)
    {
      hide MapName, Put, Scan, Erased;
      var rows := Raw(id, property);
      var dayStart, dayEnd := StartOf(day), EndOf(day);
      ghost var a, b := ScanSlices(rows, dayStart, dayEnd);
      var i := Seek(rows, dayStart, a);
      data := [];
      while i < |rows| && rows[i].key < dayEnd
        invariant a <= i <= b && data == rows[a..i]
      {
        PutAtEnd(data, rows[i].key, rows[i].value);
        data := Put(data, rows[i].key, rows[i].value);
        i := i + 1;
      }
    }

    method EraseRawData(id: string, property: string, day: nat)
      requires Valid() && Identifier(property)
      modifies this
      ensures Valid() && archives == old(archives)
      ensures Of(id, property) == old(Of(id, property)).(rows := WithoutDay(old(Raw(id, property)), day))
      ensures forall i, p :: Identifier(p) && (i, p) != (id, property) ==> Of(i, p) == old(Of(i, p))
    {
      hide MapName, Scan;
      var name := MapName(Series(id, property, 0));
      if name !in tables {
        return;
      }
      hide Erased;
      ghost var whole := tables[name];
      var rows := tables[name];
      var dayStart, dayEnd := StartOf(day), EndOf(day);
      ghost var a, b := ScanSlices(rows, dayStart, dayEnd);
      var i := Seek(rows, dayStart, a);
      rows := EraseAt(rows, i, dayEnd, b);
      tables := tables[name := rows];
      forall i, p | Identifier(p) && (i, p) != (id, property) ensures Of(i, p) == old(Of(i, p)) {
        OtherName(Series(i, p, 0), Series(id, property, 0));
      }
    }

    method StoredBytes(s: Series, day: nat) returns (bytes: seq<byte>)
      ensures bytes == Get(ArchiveOf(s), day, [])
    {
      bytes := Get(ArchiveOf(s), day, []);
    }

    method PutArchivedData(s: Series, day: nat, data: seq<byte>)
      requires Identifier(s.property)
      modifies this`archives
      ensures ArchiveOf(s) == if data == [] then old(ArchiveOf(s)) else Put(old(ArchiveOf(s)), day, data)
      ensures forall r: Series :: Identifier(r.property) && r != s ==> ArchiveOf(r) == old(ArchiveOf(r))
    {
      hide MapName, Put;
      if data == [] {
        return;
      }
      archives := archives[MapName(s) := Put(Table(archives, MapName(s)), day, data)];
      forall r: Series | Identifier(r.property) && r != s ensures ArchiveOf(r) == old(ArchiveOf(r)) {
        OtherName(r, s);
      }
    }

    /** `ArchiveDayUseCase`, with the current day as a parameter. */
    method ArchiveDay(s: Series, day: nat, today: nat)
      requires Valid() && Identifier(s.property) && s.resolution > 0 && Readable(Raw(s.thingId, s.property), day)
      modifies this`archives
      ensures ArchiveOf(s) == if day >= today then old(ArchiveOf(s))
                              else Archived(Raw(s.thingId, s.property), old(ArchiveOf(s)), day, 60 * s.resolution)
      ensures forall r: Series :: Identifier(r.property) && r != s ==> ArchiveOf(r) == old(ArchiveOf(r))
    {
      hide MapName, Put, Get;
      if day >= today {
        return;
      }
      var rawData := RawData(s.thingId, s.property, day);
      var cborData := Archive.ArchiveDay(rawData, 60 * s.resolution);
      PutArchivedData(s, day, cborData);
    }

    method ArchivedData(s: Series, day: nat, today: nat) returns (bytes: seq<byte>)
      requires Valid() && Identifier(s.property) && s.resolution > 0 && Readable(Raw(s.thingId, s.property), day)
      modifies this`archives
      ensures ArchiveOf(s) == ArchiveAfter(Raw(s.thingId, s.property), old(ArchiveOf(s)), day, 60 * s.resolution, today)
      ensures bytes == Get(ArchiveOf(s), day, [])
      ensures forall r: Series :: Identifier(r.property) && r != s ==> ArchiveOf(r) == old(ArchiveOf(r))
    {
      hide MapName, Put, Get;
      bytes := StoredBytes(s, day);
      if bytes == [] {
        ArchiveDay(s, day, today);
        bytes := StoredBytes(s, day);
      }
    }
  }

  lemma OtherName(r: Series, s: Series)
    requires Identifier(r.property) && Identifier(s.property) && r != s
    ensures MapName(r) != MapName(s)
  {
    if MapName(r) == MapName(s) {
      MapNameInjective(r, s);
    }
  }

  /** The cursor position at the first row not below `start`. */
  method Seek(rows: Dataset, start: nat, ghost first: nat) returns (i: nat)
    requires first <= |rows| && forall k :: 0 <= k < |rows| ==> (rows[k].key < start <==> k < first)
    ensures i == first
  {
    i := 0;
    while i < |rows| && rows[i].key < start
      invariant i <= first
    {
      i := i + 1;
    }
  }

  /** Erases at the cursor until `end`; row `next` is the one under the cursor. */
  method EraseAt(whole: Dataset, i: nat, end: nat, ghost b: nat) returns (rows: Dataset)
    requires i <= b <= |whole| && forall k :: i <= k < |whole| ==> (whole[k].key < end <==> k < b)
    ensures rows == whole[..i] + whole[b..]
  {
    rows := whole;
    ghost var next := i;
    while i < |rows| && rows[i].key < end
      invariant i <= next <= b && rows == whole[..i] + whole[next..]
      decreases |rows|
    {
      OneErased(whole, i, next);
      rows := rows[..i] + rows[i + 1..];
      next := next + 1;
    }
  }

  lemma OneErased(whole: Dataset, i: nat, next: nat)
    requires i <= next < |whole|
    ensures var rows := whole[..i] + whole[next..];
            i < |rows| && rows[i] == whole[next] && rows[..i] + rows[i + 1..] == whole[..i] + whole[next + 1..]
  {
  }
}
