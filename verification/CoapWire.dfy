/** The bytes that `CoapMessage::encode` writes, number by number (RFC 7252, sections 3 and 3.1). */
module CoapWire {
  import opened Words
  import opened Coap
  import opened Choice

  /** Without options and payload: version, type and token length in one byte, code, message id, token. */
  lemma HeaderOnWire(m: Message)
    requires |m.token| <= 12 && m.options == [] && m.payload == []
    ensures var data := Encoded(m);
            && |data| == 4 + |m.token| && data[4..] == m.token
            && data[0] == 64 * (m.version % 4) + 16 * m.kind + |m.token|
            && data[1] == m.code && data[2] as int * 256 + data[3] as int == m.messageId
  {
    assert m.token[..|m.token|] == m.token;
  }

  /** A token of 13 to 255 bytes makes the message empty; beyond that its length counts modulo 256. */
  lemma LongTokenOnWire(m: Message)
    ensures Encoded(m) == [] <==> |m.token| % 256 > 12
  {
  }

  lemma PayloadOnWire(m: Message)
    requires |m.token| <= 12
    ensures Encoded(m) == Encoded(m.(payload := [])) + if m.payload == [] then [] else [0xFF] + m.payload
  {
    hide RawsOf, PrintAll, Header;
    var front := Header(m, |m.token|) + m.token[..|m.token|] + PrintAll(RawsOf(m.options, 0));
    SameHeader(m, m.(payload := []));
    assert front + [] == front;
  }

  lemma SameHeader(m: Message, r: Message)
    requires |m.token| <= 12 && r.version == m.version && r.kind == m.kind && r.code == m.code
    requires r.messageId == m.messageId && r.token == m.token
    ensures Header(r, |r.token|) == Header(m, |m.token|)
  {
  }

  lemma {:induction false} RawsOfSnoc(options: seq<Opt>, opt: Opt, previous: uint16)
    ensures var last := if options == [] then previous else options[|options| - 1].number;
            PrintAll(RawsOf(options + [opt], previous))
            == PrintAll(RawsOf(options, previous)) + Print(RawOf(opt, last))
  {
    hide RawOf, Print;
    if options == [] {
      assert ([] + [opt])[1..] == [];
      PrintAllCons(RawOf(opt, previous), []);
      assert Print(RawOf(opt, previous)) + [] == [] + Print(RawOf(opt, previous));
    } else {
      var first, rest := options[0], options[1..];
      assert (options + [opt])[1..] == rest + [opt];
      RawsOfSnoc(rest, opt, first.number);
      PrintAllCons(RawOf(first, previous), RawsOf(rest + [opt], first.number));
      PrintAllCons(RawOf(first, previous), RawsOf(rest, first.number));
      var last := if rest == [] then first.number else rest[|rest| - 1].number;
      Regroup(Print(RawOf(first, previous)), PrintAll(RawsOf(rest, first.number)), Print(RawOf(opt, last)));
    }
  }

  /** `x` in the form of section 3.1: below 13 in the nibble, below 269 in one byte, else in two, the higher first. */
  predicate Form(x: int, nibble: int, ext: seq<byte>) {
    if x < 13 then nibble == x && ext == []
    else if x < 269 then nibble == 13 && |ext| == 1 && ext[0] as int == x - 13
    else nibble == 14 && |ext| == 2 && ext[0] as int * 256 + ext[1] as int == x - 269
  }

  /**
   * One more option appends its own bytes: a header byte with the form of the number's distance to the previous one in
   * the high nibble and of the length in the low one, both modulo 65536, then the two extensions, then the value.
   */
  lemma OptionOnWire(m: Message, opt: Opt) returns (header: byte, deltaExt: seq<byte>, lengthExt: seq<byte>)
    requires |m.token| <= 12 && m.payload == []
    ensures Encoded(m.(options := m.options + [opt])) == Encoded(m) + [header] + deltaExt + lengthExt + opt.value
    ensures var previous := if m.options == [] then 0 else m.options[|m.options| - 1].number;
            && Form((opt.number - previous) % 65536, header / 16, deltaExt)
            && Form(|opt.value| % 65536, header % 16, lengthExt)
  {
    hide RawsOf, PrintAll, Header, ExtFits, ExtSize;
    var previous: uint16 := if m.options == [] then 0 else m.options[|m.options| - 1].number;
    var raw := RawOf(opt, previous);
    header, deltaExt, lengthExt := raw.deltaNibble * 16 + raw.lengthNibble, raw.deltaExt, raw.lengthExt;
    RawsOfSnoc(m.options, opt, 0);
    SameHeader(m, m.(options := m.options + [opt]));
    var front := Header(m, |m.token|) + m.token[..|m.token|];
    assert front + (PrintAll(RawsOf(m.options, 0)) + Print(raw)) == front + PrintAll(RawsOf(m.options, 0)) + Print(raw);
    assert Encoded(m) == front + PrintAll(RawsOf(m.options, 0));
    NibbleForm(U16(opt.number - previous));
    NibbleForm(U16(|opt.value|));
    assert Print(raw) == [header] + deltaExt + lengthExt + opt.value;
    Pieces4(Encoded(m), [header], deltaExt, lengthExt, opt.value);
  }

  lemma Pieces4(a: seq<byte>, b: seq<byte>, c: seq<byte>, d: seq<byte>, e: seq<byte>)
    ensures a + (b + c + d + e) == a + b + c + d + e
  {
  }

  lemma NibbleForm(x: uint16)
    ensures Form(x, Nibble(x), Extension(x))
  {
  }

  lemma {:induction false} FiledRows(options: seq<Opt>, n: uint16, wanted: Opt -> bool, value: Opt -> seq<byte>)
    returns (chosen: seq<nat>)
    requires forall o :: (wanted(o) <==> o.number == n) && value(o) == o.value
    ensures Chooses(options, wanted, chosen) && Yields(options, value, chosen, ValuesOf(options, n))
  {
    chosen := [];
    if options != [] {
      var k := |options| - 1;
      var earlier := FiledRows(options[..k], n, wanted, value);
      ChooseNext(options[..k], wanted, value, earlier, ValuesOf(options[..k], n), options[k]);
      assert options[..k] + [options[k]] == options;
      chosen := if options[k].number == n then earlier + [k] else earlier;
    }
  }

  /** What is filed under a number: the values of all options with that number and no others, in their order. */
  lemma FiledInOrder(options: seq<Opt>, n: uint16) returns (chosen: seq<nat>)
    ensures var filed := Filed(ByNumber(options), n);
            && |chosen| == |filed|
            && (forall i :: 0 <= i < |chosen| ==> chosen[i] < |options| && filed[i] == options[chosen[i]].value)
            && (forall i, j :: 0 <= i < j < |chosen| ==> chosen[i] < chosen[j])
            && (forall i: nat :: i < |options| ==> (i in chosen <==> options[i].number == n))
  {
    ByNumberFiles(options, n);
    hide ByNumber, Filed, ValuesOf;
    chosen := FiledRows(options, n, (o: Opt) => o.number == n, (o: Opt) => o.value);
  }
}
