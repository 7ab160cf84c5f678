/** Round trips, the accepted language and the ordering of options of the CoAP codec. */
module CoapTheorems {
  import opened Words
  import opened Coap

  // ---- The language that decode accepts ----------------------------------------------------

  /** A reading of `data`: header, token, well-formed options, then nothing or the marker and the rest. */
  datatype Reading = Reading(token: seq<byte>, raws: seq<Raw>, tail: seq<byte>)

  ghost predicate Reads(data: seq<byte>, w: Reading) {
    && |data| >= 4 && |w.token| == data[0] % 16 <= 12
    && AllWellFormed(w.raws) && IsTail(w.tail)
    && data == data[..4] + w.token + PrintAll(w.raws) + w.tail
  }

  lemma ReadingParses(data: seq<byte>, w: Reading)
    requires Reads(data, w)
    ensures 4 + |w.token| <= |data| && data[4..4 + |w.token|] == w.token
    ensures ParseAll(data[4 + |w.token|..]) == Some(Parsed(w.raws, w.tail))
  {
    var rest := PrintAll(w.raws) + w.tail;
    assert data == data[..4] + w.token + rest;
    assert data[4..4 + |w.token|] == w.token && data[4 + |w.token|..] == rest;
    ParseUndoesPrint(w.raws, w.tail);
  }

  /** Every byte string has at most one reading. */
  lemma ReadingUnique(data: seq<byte>, v: Reading, w: Reading)
    requires Reads(data, v) && Reads(data, w)
    ensures v == w
  {
    hide ParseAll, PrintAll, AllWellFormed, IsTail;
    ReadingParses(data, v);
    ReadingParses(data, w);
  }

  /** The message a reading describes. */
  function Described(data: seq<byte>, w: Reading): Message
    requires |data| >= 4 && AllWellFormed(w.raws)
  {
    Message(data[0] / 64, data[0] / 16 % 4, data[1], data[2] as int * 0x100 + data[3] as int,
            w.token, [], ByNumber(Numbered(w.raws, 0)), Payload(w.tail))
  }

  lemma ReadingDecodes(data: seq<byte>, w: Reading)
    requires Reads(data, w)
    ensures Decoded(data) == Some(Described(data, w))
  {
    hide PrintAll, ParseAll;
    ReadingParses(data, w);
  }

  lemma DecodedHasReading(data: seq<byte>) returns (w: Reading)
    requires Decoded(data).Some?
    ensures Reads(data, w)
  {
    hide ByNumber, Numbered, WellFormed, PrintAll, ParseAll, IsTail;
    var tokenLength := data[0] % 16;
    var s := data[4 + tokenLength..];
    PrintUndoesParse(s);
    var p := ParseAll(s).value;
    w := Reading(data[4..4 + tokenLength], p.raws, p.tail);
    CutUp(data, tokenLength, PrintAll(p.raws), p.tail);
  }

  lemma CutUp(data: seq<byte>, n: nat, a: seq<byte>, b: seq<byte>)
    requires 4 + n <= |data| && data[4 + n..] == a + b
    ensures data == data[..4] + data[4..4 + n] + a + b
  {
    assert data == data[..4] + data[4..4 + n] + data[4 + n..];
  }

  /** `decode` accepts exactly the byte strings that have a reading, and returns what the reading says. */
  lemma DecodeAcceptsReadings(data: seq<byte>)
    ensures Decoded(data).Some? <==> exists w :: Reads(data, w)
    ensures forall w :: Reads(data, w) ==> Decoded(data) == Some(Described(data, w))
  {
    hide Described, Decoded;
    forall w | Reads(data, w)
      ensures AllWellFormed(w.raws) && |data| >= 4 && Decoded(data) == Some(Described(data, w))
    {
      ReadingDecodes(data, w);
    }
    if Decoded(data).Some? {
      var w := DecodedHasReading(data);
    }
  }

  // ---- Round trip --------------------------------------------------------------------------

  /** `r` carries everything `m` does: per option number the same values in the same order. */
  ghost predicate Recovers(m: Message, r: Option<Message>) {
    && r.Some?
    && r.value.version == m.version && r.value.kind == m.kind && r.value.code == m.code
    && r.value.messageId == m.messageId && r.value.token == m.token && r.value.payload == m.payload
    && forall n: uint16 :: Filed(r.value.optionsMap, n) == ValuesOf(m.options, n)
  }

  ghost predicate Encodable(m: Message) {
    m.version < 4 && |m.token| <= 12 && ShortValues(m.options)
  }

  /** The first four bytes of an encoded message. */
  lemma HeaderFields(m: Message, tokenLength: nat, rest: seq<byte>)
    requires tokenLength <= 12
    ensures var data := Header(m, tokenLength) + rest;
            && data[..4] == Header(m, tokenLength)
            && data[0] % 16 == tokenLength && data[0] / 16 % 4 == m.kind && data[0] / 64 == m.version % 4
            && data[1] == m.code && data[2] as int * 0x100 + data[3] as int == m.messageId
  {
  }

  function ReadingOf(m: Message): Reading {
    Reading(m.token, RawsOf(m.options, 0), Tail(m.payload))
  }

  lemma EncodedReads(m: Message)
    requires |m.token| <= 12 && ShortValues(m.options)
    ensures Reads(Encoded(m), ReadingOf(m))
    ensures var data := Encoded(m);
            data[0] / 16 % 4 == m.kind && data[0] / 64 == m.version % 4
            && data[1] == m.code && data[2] as int * 0x100 + data[3] as int == m.messageId
  {
    hide Header, RawsOf, PrintAll, WellFormed;
    assert m.token[..|m.token|] == m.token;
    NumbersRoundTrip(m.options, 0);
    var rest := m.token + PrintAll(RawsOf(m.options, 0)) + Tail(m.payload);
    HeaderFields(m, |m.token|, rest);
    assert Encoded(m) == Header(m, |m.token|) + rest;
  }

  lemma EncodableRecovers(m: Message)
    requires Encodable(m)
    ensures Recovers(m, Decoded(Encoded(m)))
  {
    hide Encoded, Numbered, RawsOf, ByNumber, ValuesOf, Decoded, Reads;
    EncodedReads(m);
    NumbersRoundTrip(m.options, 0);
    ReadingDecodes(Encoded(m), ReadingOf(m));
    forall n: uint16 ensures Filed(ByNumber(m.options), n) == ValuesOf(m.options, n) {
      ByNumberFiles(m.options, n);
    }
  }

  /** An over-long value: the 16-bit length cuts it, and the reader sees a shorter one. */
  lemma LongValueCut(opt: Opt, previous: uint16, rest: seq<byte>)
    requires |opt.value| > 0xFFFF
    ensures var r := ParseOne(Print(RawOf(opt, previous)) + rest);
            r.Some? && |r.value.value| < |opt.value| && ExtFits(r.value.deltaNibble, r.value.deltaExt)
            && U16(previous + Extended(r.value.deltaNibble, r.value.deltaExt)) == opt.number
            && Print(RawOf(opt, previous))[0] != 0xFF
  {
    hide ParseOne, Extended, ExtFits, Nibble, Extension;
    var raw := RawOf(opt, previous);
    var length := U16(|opt.value|);
    ExtensionRoundTrip(U16(opt.number - previous));
    ExtensionRoundTrip(length);
    var cut := raw.(value := opt.value[..length]);
    var others := opt.value[length..] + rest;
    CutPrint(raw, length, rest);
    ParsePrinted(cut, others);
    assert Print(raw)[0] == Print(cut)[0];
  }

  lemma CutPrint(raw: Raw, length: nat, rest: seq<byte>)
    requires length <= |raw.value|
    ensures Print(raw) + rest == Print(raw.(value := raw.value[..length])) + (raw.value[length..] + rest)
  {
    assert raw.value == raw.value[..length] + raw.value[length..];
  }

  /** Reading a list of options with an over-long one among them never gives back what was filed under its number. */
  lemma LongValueLost(before: seq<Opt>, opt: Opt, after: seq<Opt>, previous: uint16, tail: seq<byte>)
    requires ShortValues(before) && |opt.value| > 0xFFFF
    ensures var r := DecodedOptions(PrintAll(RawsOf(before + [opt] + after, previous)) + tail, previous);
            r.Some? ==> ValuesOf(r.value.0, opt.number) != ValuesOf(before + [opt] + after, opt.number)
  {
    var r := DecodedOptions(PrintAll(RawsOf(before + [opt] + after, previous)) + tail, previous);
    if r.Some? {
      var cut, others := ReadThrough(before, opt, after, previous, tail);
      ValuesOfConcat(before + [opt], after, opt.number);
      ValuesOfConcat(before, [opt], opt.number);
      ValuesOfConcat(before + [cut], others, opt.number);
      ValuesOfConcat(before, [cut], opt.number);
      var k := |ValuesOf(before, opt.number)|;
      OneValue(opt);
      OneValue(cut);
      assert ValuesOf(before + [opt] + after, opt.number)[k] == opt.value;
      assert ValuesOf(r.value.0, opt.number)[k] == cut.value;
    }
  }

  lemma OneValue(o: Opt)
    ensures ValuesOf([o], o.number) == [o.value]
  {
    assert [o][..0] == [];
  }

  lemma {:induction false} ReadThrough(before: seq<Opt>, opt: Opt, after: seq<Opt>, previous: uint16, tail: seq<byte>)
    returns (cut: Opt, others: seq<Opt>)
    requires ShortValues(before) && |opt.value| > 0xFFFF
    requires DecodedOptions(PrintAll(RawsOf(before + [opt] + after, previous)) + tail, previous).Some?
    ensures cut.number == opt.number && |cut.value| < |opt.value|
    ensures DecodedOptions(PrintAll(RawsOf(before + [opt] + after, previous)) + tail, previous).value.0
         == before + [cut] + others
    decreases |before|
  {
    hide RawOf, Print, ParseOne, Extended, WellFormed, ParseAll, DecodedOptions, Nibble, Extension, ExtFits;
    var all := before + [opt] + after;
    var first := RawOf(all[0], previous);
    var rest := PrintAll(RawsOf(all[1..], all[0].number)) + tail;
    assert PrintAll(RawsOf(all, previous)) + tail == Print(first) + rest by {
      PrintAllCons(first, RawsOf(all[1..], all[0].number));
    }
    var s := Print(first) + rest;
    PrintNotEmpty(first);
    if before == [] {
      LongValueCut(opt, previous, rest);
      OptionStep(s, previous);
      cut := Opt(opt.number, ParseOne(s).value.value);
      others := DecodedOptions(s[|Print(ParseOne(s).value)|..], opt.number).value.0;
      assert [] + [cut] + others == [cut] + others;
    } else {
      RawOfShort(all[0], previous);
      ParsePrinted(first, rest);
      OptionStep(s, previous);
      assert all[1..] == before[1..] + [opt] + after;
      cut, others := ReadThrough(before[1..], opt, after, all[0].number, tail);
      KeepsValue(all[0], previous);
      assert before == [all[0]] + before[1..];
      assert [all[0]] + (before[1..] + [cut] + others) == before + [cut] + others;
    }
  }

  lemma PrintNotEmpty(r: Raw)
    ensures |Print(r)| >= 1
  {
  }

  lemma KeepsValue(opt: Opt, previous: uint16)
    ensures RawOf(opt, previous).value == opt.value
  {
  }

  lemma {:induction false} FirstLong(options: seq<Opt>) returns (k: nat)
    requires !ShortValues(options)
    ensures k < |options| && ShortValues(options[..k]) && |options[k].value| > 0xFFFF
  {
    if |options[0].value| > 0xFFFF {
      k := 0;
    } else {
      assert exists i :: 0 <= i < |options[1..]| && |options[1..][i].value| > 0xFFFF by {
        var i :| 0 <= i < |options| && |options[i].value| > 0xFFFF;
        assert options[1..][i - 1] == options[i];
      }
      k := FirstLong(options[1..]);
      forall i | 0 <= i < k + 1 ensures |options[i].value| <= 0xFFFF {
        if i > 0 { assert options[1..][..k][i - 1] == options[i]; }
      }
      k := k + 1;
    }
  }

  /**
   * Round trip: `decode(encode(m))` carries everything `m` does, options in any order, if and only if
   * the version fits its two bits, the token has at most 12 bytes and no value is longer than 65535 bytes.
   */
  lemma RoundTripIff(m: Message)
    ensures Recovers(m, Decoded(Encoded(m))) <==> Encodable(m)
  {
    if Encodable(m) {
      EncodableRecovers(m);
    } else if |m.token| % 0x100 <= 12 {
      EncodedHeader(m);
      if |m.token| <= 12 && m.version < 4 {
        LongValueBreaks(m);
      }
    }
  }

  /** Whatever the rest is, the header says version modulo 4 and token length modulo 256. */
  lemma EncodedHeader(m: Message)
    requires |m.token| % 0x100 <= 12
    ensures var r := Decoded(Encoded(m));
            r.Some? ==> r.value.version == m.version % 4 && |r.value.token| == |m.token| % 0x100
  {
    hide Header, RawsOf, PrintAll, DecodedOptions, ByNumber;
    var tokenLength := |m.token| % 0x100;
    var rest := m.token[..tokenLength] + PrintAll(RawsOf(m.options, 0)) + Tail(m.payload);
    HeaderFields(m, tokenLength, rest);
    assert Encoded(m) == Header(m, tokenLength) + rest;
  }

  lemma LongValueBreaks(m: Message)
    requires |m.token| <= 12 && !ShortValues(m.options)
    ensures !Recovers(m, Decoded(Encoded(m)))
  {
    hide Header, RawsOf, PrintAll, DecodedOptions, ByNumber, ValuesOf, ShortValues;
    var k := FirstLong(m.options);
    var opt := m.options[k];
    assert m.options == m.options[..k] + [opt] + m.options[k + 1..];
    LongValueLost(m.options[..k], opt, m.options[k + 1..], 0, Tail(m.payload));
    var rest := m.token + PrintAll(RawsOf(m.options, 0)) + Tail(m.payload);
    HeaderFields(m, |m.token|, rest);
    assert m.token[..|m.token|] == m.token;
    assert Encoded(m) == Header(m, |m.token|) + rest;
    var data := Encoded(m);
    assert data[4 + |m.token|..] == PrintAll(RawsOf(m.options, 0)) + Tail(m.payload);
    var r := DecodedOptions(data[4 + |m.token|..], 0);
    if r.Some? {
      ByNumberFiles(r.value.0, opt.number);
    }
  }

  /** No option header that `encode` writes can be taken for the payload marker. */
  lemma NoHeaderIsMarker(options: seq<Opt>, previous: uint16, i: nat)
    requires i < |options|
    ensures RawsOf(options, previous)[i].deltaNibble < 15 && RawsOf(options, previous)[i].lengthNibble < 15
    ensures Print(RawsOf(options, previous)[i])[0] != 0xFF
    decreases i
  {
    if i > 0 {
      NoHeaderIsMarker(options[1..], options[0].number, i - 1);
    }
  }

  // ---- Encoding again, and the order of options --------------------------------------------

  /**
   * `decode` files the options in the map only, so encoding a decoded message gives its bytes back
   * if and only if it had no options and no bare payload marker.
   */
  lemma ReencodeIff(data: seq<byte>, w: Reading)
    requires Reads(data, w)
    ensures Encoded(Described(data, w)) == data <==> w.raws == [] && w.tail != [0xFF]
  {
    hide WellFormed, ByNumber, Numbered, Header, PrintAll, Tail, Payload, Encoded;
    var m := Described(data, w);
    ReadingParses(data, w);
    SameHeader(data, m);
    EncodedBare(m);
    TailAgain(w.tail);
    PrintSize(w.raws);
    FrontCancels(data[..4] + w.token, PrintAll(w.raws), w.tail, Tail(m.payload));
  }

  lemma EncodedBare(m: Message)
    requires m.options == [] && |m.token| <= 12
    ensures Encoded(m) == Header(m, |m.token|) + m.token + [] + Tail(m.payload)
  {
    hide Header, Tail;
    assert m.token[..|m.token|] == m.token;
  }

  lemma FrontCancels(front: seq<byte>, printed: seq<byte>, tail: seq<byte>, written: seq<byte>)
    requires written == if tail == [0xFF] then [] else tail
    ensures front + [] + written == front + printed + tail <==> printed == [] && tail != [0xFF]
  {
    if printed != [] || tail == [0xFF] {
      assert |front + [] + written| < |front + printed + tail|;
    }
  }

  lemma SameHeader(data: seq<byte>, m: Message)
    requires |data| >= 4 && |m.token| == data[0] % 16 <= 12
    requires m.version == data[0] / 64 && m.kind == data[0] / 16 % 4 && m.code == data[1]
    requires m.messageId == data[2] as int * 0x100 + data[3] as int
    ensures Header(m, |m.token|) == data[..4]
  {
  }

  lemma TailAgain(tail: seq<byte>)
    requires IsTail(tail)
    ensures Tail(Payload(tail)) == if tail == [0xFF] then [] else tail
  {
    if tail != [] {
      assert tail == [0xFF] + tail[1..];
    }
  }

  lemma PrintSize(raws: seq<Raw>)
    ensures PrintAll(raws) == [] <==> raws == []
  {
    if raws != [] {
      PrintNotEmpty(raws[0]);
    }
  }

  ghost predicate InOrder(options: seq<Opt>, previous: int) {
    (options != [] ==> previous <= options[0].number)
    && forall i, j :: 0 <= i < j < |options| ==> options[i].number <= options[j].number
  }

  /** The option numbers as RFC 7252 defines them: sums of the deltas, without wrap-around. */
  function PlainNumbers(raws: seq<Raw>, number: int): seq<int>
    requires forall i :: 0 <= i < |raws| ==> ExtFits(raws[i].deltaNibble, raws[i].deltaExt)
  {
    if raws == [] then []
    else
      var n := number + Extended(raws[0].deltaNibble, raws[0].deltaExt);
      [n] + PlainNumbers(raws[1..], n)
  }

  function Numbers(options: seq<Opt>): seq<int> {
    if options == [] then [] else [options[0].number as int] + Numbers(options[1..])
  }

  lemma {:induction false} DeltasFit(options: seq<Opt>, previous: uint16)
    ensures forall i :: 0 <= i < |options| ==>
              ExtFits(RawsOf(options, previous)[i].deltaNibble, RawsOf(options, previous)[i].deltaExt)
  {
    if options != [] {
      ExtensionRoundTrip(U16(options[0].number - previous));
      DeltasFit(options[1..], options[0].number);
    }
  }

  /**
   * A reader that does not wrap its sums gets the numbers right if and only if the options were given
   * in non-descending order: `encode` computes a sorted copy but does not use it.
   */
  lemma {:induction false} WireOrderIff(options: seq<Opt>, previous: uint16)
    ensures forall i :: 0 <= i < |options| ==>
              ExtFits(RawsOf(options, previous)[i].deltaNibble, RawsOf(options, previous)[i].deltaExt)
    ensures PlainNumbers(RawsOf(options, previous), previous) == Numbers(options) <==> InOrder(options, previous)
  {
    hide PlainNumbers, InOrder, RawsOf, ExtFits, U16, Numbers;
    DeltasFit(options, previous);
    if options == [] {
      NoOptions(previous);
    } else {
      NumbersStep(options);
      var first, rest := options[0], options[1..];
      WireOrderIff(rest, first.number);
      PlainStep(options, previous);
      OrderSplits(options, previous);
      PlainDelta(previous, first.number);
      if previous <= first.number {
        SameHead(first.number, PlainNumbers(RawsOf(rest, first.number), first.number), Numbers(rest));
      } else {
        var n := previous + U16(first.number - previous);
        OtherHead(n, first.number, PlainNumbers(RawsOf(rest, first.number), n), Numbers(rest));
      }
    }
  }

  lemma NoOptions(previous: uint16)
    ensures PlainNumbers(RawsOf([], previous), previous) == [] == Numbers([]) && InOrder([], previous)
  {
  }

  lemma NumbersStep(options: seq<Opt>)
    requires options != []
    ensures Numbers(options) == [options[0].number as int] + Numbers(options[1..])
  {
  }

  lemma PlainDelta(previous: uint16, number: uint16)
    ensures previous + U16(number - previous) == number <==> previous <= number
  {
  }

  lemma SameHead(n: int, x: seq<int>, y: seq<int>)
    ensures [n] + x == [n] + y <==> x == y
  {
    assert ([n] + x)[1..] == x && ([n] + y)[1..] == y;
  }

  lemma OtherHead(n: int, k: int, x: seq<int>, y: seq<int>)
    requires n != k
    ensures [n] + x != [k] + y
  {
    assert ([n] + x)[0] == n && ([k] + y)[0] == k;
  }

  lemma PlainStep(options: seq<Opt>, previous: uint16)
    requires options != []
    requires forall i :: 0 <= i < |options| ==>
               ExtFits(RawsOf(options, previous)[i].deltaNibble, RawsOf(options, previous)[i].deltaExt)
    requires forall i :: 0 <= i < |options[1..]| ==>
               ExtFits(RawsOf(options[1..], options[0].number)[i].deltaNibble,
                       RawsOf(options[1..], options[0].number)[i].deltaExt)
    ensures var n := previous + U16(options[0].number - previous);
            PlainNumbers(RawsOf(options, previous), previous)
            == [n] + PlainNumbers(RawsOf(options[1..], options[0].number), n)
  {
    hide Extended, ExtFits;
    ExtensionRoundTrip(U16(options[0].number - previous));
    assert RawsOf(options, previous)[1..] == RawsOf(options[1..], options[0].number);
  }

  lemma OrderSplits(options: seq<Opt>, previous: int)
    requires options != []
    ensures InOrder(options, previous) <==> previous <= options[0].number && InOrder(options[1..], options[0].number)
  {
    var rest := options[1..];
    assert forall i :: 0 <= i < |rest| ==> rest[i] == options[i + 1];
    if previous <= options[0].number && InOrder(rest, options[0].number) {
      forall i, j | 0 <= i < j < |options| ensures options[i].number <= options[j].number {
        if i > 0 {
          assert rest[i - 1].number <= rest[j - 1].number;
        } else if j > 1 {
          assert rest[0].number <= rest[j - 1].number;
        }
      }
    }
    if InOrder(options, previous) {
      forall i, j | 0 <= i < j < |rest| ensures rest[i].number <= rest[j].number {
        assert options[i + 1].number <= options[j + 1].number;
      }
    }
  }
}
