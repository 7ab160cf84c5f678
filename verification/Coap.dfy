/** `CoapMessage::encode` and `CoapMessage::decode` (RFC 7252, sections 3 and 3.1). */
module Coap {
  import opened Words

  type nibble = x: int | 0 <= x < 16

  /** Confirmable, NonConfirmable, Acknowledgement, Reset. */
  type MessageType = x: int | 0 <= x < 4

  datatype Opt = Opt(number: uint16, value: seq<byte>)

  /** The fields that travel; `options` feeds `encode`, `optionsMap` is what `decode` fills. */
  datatype Message = Message(
    version: byte, kind: MessageType, code: byte, messageId: uint16, token: seq<byte>,
    options: seq<Opt>, optionsMap: map<uint16, seq<seq<byte>>>, payload: seq<byte>)

  // ---- The wire format of one option -------------------------------------------------------

  /** An option as it stands on the wire: two nibbles, their extension bytes, the value. */
  datatype Raw = Raw(
    deltaNibble: nibble, deltaExt: seq<byte>, lengthNibble: nibble, lengthExt: seq<byte>, value: seq<byte>)

  function Print(r: Raw): seq<byte> {
    [r.deltaNibble * 16 + r.lengthNibble] + r.deltaExt + r.lengthExt + r.value
  }

  predicate ExtFits(n: nibble, ext: seq<byte>) {
    n < 15 && |ext| == ExtSize(n)
  }

  /** The 16-bit number a nibble and its extension stand for. */
  function Extended(n: nibble, ext: seq<byte>): uint16
    requires ExtFits(n, ext)
  {
    if n < 13 then n
    else if n == 13 then 13 + ext[0] as int
    else U16(269 + 0x100 * (ext[0] as int) + ext[1] as int)
  }

  /** Well formed: no reserved nibble, extensions of the right size, and a value of the stated length. */
  predicate WellFormed(r: Raw) {
    && ExtFits(r.deltaNibble, r.deltaExt) && ExtFits(r.lengthNibble, r.lengthExt)
    && |r.value| == Extended(r.lengthNibble, r.lengthExt)
  }

  ghost predicate AllWellFormed(raws: seq<Raw>) {
    forall i :: 0 <= i < |raws| ==> WellFormed(raws[i])
  }

  function PrintAll(raws: seq<Raw>): seq<byte> {
    if raws == [] then [] else Print(raws[0]) + PrintAll(raws[1..])
  }

  /** What may follow the options: nothing, or the payload marker and the rest. */
  predicate IsTail(tail: seq<byte>) {
    tail == [] || tail[0] == 0xFF
  }

  // ---- Reading options ---------------------------------------------------------------------

  function ExtSize(n: nibble): nat {
    if n == 13 then 1 else if n == 14 then 2 else 0
  }

  lemma Pieces<T>(s: seq<T>, i: nat, j: nat, k: nat, n: nat)
    requires i <= j <= k <= n <= |s|
    ensures s[..i] + s[i..j] + s[j..k] + s[k..n] == s[..n]
  {
    assert s[..i] + s[i..j] == s[..j];
    assert s[..j] + s[j..k] == s[..k];
    assert s[..k] + s[k..n] == s[..n];
  }

  lemma HeaderByte(s: seq<byte>)
    requires s != []
    ensures [s[0] / 16 * 16 + s[0] % 16] == s[..1]
  {
  }

  lemma Subslice<T>(s: seq<T>, start: nat, i: nat, j: nat)
    requires start <= |s| && i <= j <= |s| - start
    ensures s[start..][i..j] == s[start + i..start + j]
  {
  }

  lemma Gather<T>(out: seq<T>, a: seq<T>, b: seq<T>, c: seq<T>, d: seq<T>)
    ensures out + a + (b + c) + d == out + (a + b + c + d)
  {
    Regroup(out + a, b, c);
    Regroup(out, a, b);
    Regroup(out, a + b, c);
    Regroup(out, a + b + c, d);
  }

  lemma Regroup<T>(a: seq<T>, b: seq<T>, c: seq<T>)
    ensures a + (b + c) == a + b + c
  {
  }

  /** Reads one option from the front of `s`. */
  function ParseOne(s: seq<byte>): (r: Option<Raw>)
    requires s != []
    ensures r.Some? ==> WellFormed(r.value) && Print(r.value) <= s
  {
    var dn: nibble, ln: nibble := s[0] / 16, s[0] % 16;
    var ds, ls := ExtSize(dn), ExtSize(ln);
    if dn == 15 || ln == 15 || |s| < 1 + ds + ls then None
    else
      var dx, lx := s[1..1 + ds], s[1 + ds..1 + ds + ls];
      var length := Extended(ln, lx);
      if |s| < 1 + ds + ls + length then None
      else
        var r := Raw(dn, dx, ln, lx, s[1 + ds + ls..1 + ds + ls + length]);
        Pieces(s, 1, 1 + ds, 1 + ds + ls, 1 + ds + ls + length);
        HeaderByte(s);
        assert Print(r) == s[..1 + ds + ls + length];
        Some(r)
  }

  datatype Parsed = Parsed(raws: seq<Raw>, tail: seq<byte>)

  /** Reads options up to the end or the payload marker. */
  function ParseAll(s: seq<byte>): (r: Option<Parsed>)
  {
    if IsTail(s) then Some(Parsed([], s))
    else
      match ParseOne(s)
      case None => None
      case Some(raw) =>
        match ParseAll(s[|Print(raw)|..])
        case None => None
        case Some(rest) => Some(Parsed([raw] + rest.raws, rest.tail))
  }

  lemma ParsePrinted(r: Raw, rest: seq<byte>)
    requires WellFormed(r)
    ensures Print(r)[0] != 0xFF && |Print(r)| >= 1
    ensures ParseOne(Print(r) + rest) == Some(r) && (Print(r) + rest)[|Print(r)|..] == rest
  {
    hide Extended;
    var s := Print(r) + rest;
    var h: seq<byte> := [r.deltaNibble as int * 16 + r.lengthNibble as int];
    assert s[0] == h[0] && s[0] / 16 == r.deltaNibble && s[0] % 16 == r.lengthNibble;
    Middle(h, r.deltaExt, r.lengthExt + r.value + rest, s);
    Middle(h + r.deltaExt, r.lengthExt, r.value + rest, s);
    Middle(h + r.deltaExt + r.lengthExt, r.value, rest, s);
  }

  lemma Middle(a: seq<byte>, b: seq<byte>, c: seq<byte>, s: seq<byte>)
    requires s == a + b + c
    ensures s[|a|..|a| + |b|] == b && s[|a| + |b|..] == c
  {
  }

  /** Printing well-formed options and reading them back gives the same options and the same tail. */
  lemma {:induction false} ParseUndoesPrint(raws: seq<Raw>, tail: seq<byte>)
    requires AllWellFormed(raws) && IsTail(tail)
    ensures ParseAll(PrintAll(raws) + tail) == Some(Parsed(raws, tail))
  {
    hide Print, ParseAll, WellFormed;
    if raws == [] {
      assert PrintAll(raws) + tail == tail;
      ParseTail(tail);
    } else {
      var rest := PrintAll(raws[1..]) + tail;
      Regroup(Print(raws[0]), PrintAll(raws[1..]), tail);
      ParseStep(raws[0], rest);
      ParseUndoesPrint(raws[1..], tail);
      assert raws == [raws[0]] + raws[1..];
    }
  }

  lemma ParseTail(tail: seq<byte>)
    requires IsTail(tail)
    ensures ParseAll(tail) == Some(Parsed([], tail))
  {
  }

  lemma ParseStep(r: Raw, rest: seq<byte>)
    requires WellFormed(r)
    ensures ParseAll(Print(r) + rest)
         == match ParseAll(rest)
            case None => None
            case Some(p) => Some(Parsed([r] + p.raws, p.tail))
  {
    hide Print, WellFormed, ParseOne;
    ParsePrinted(r, rest);
    assert (Print(r) + rest)[0] == Print(r)[0];
  }

  /** What was read, printed again, is what was there. */
  lemma {:induction false} PrintUndoesParse(s: seq<byte>)
    requires ParseAll(s).Some?
    ensures var p := ParseAll(s).value;
            AllWellFormed(p.raws) && IsTail(p.tail) && PrintAll(p.raws) + p.tail == s
    decreases |s|
  {
    hide Print, ParseOne, WellFormed;
    if IsTail(s) {
      assert PrintAll([]) + s == s;
    } else {
      var raw := ParseOne(s).value;
      FrontOption(s);
      PrintUndoesParse(s[|Print(raw)|..]);
      var p := ParseAll(s[|Print(raw)|..]).value;
      Reassemble(s, raw, p.raws, p.tail);
    }
  }

  lemma FrontOption(s: seq<byte>)
    requires s != [] && ParseOne(s).Some?
    ensures var r := ParseOne(s).value;
            WellFormed(r) && 1 <= |Print(r)| <= |s| && s == Print(r) + s[|Print(r)|..]
  {
  }

  lemma Reassemble(s: seq<byte>, raw: Raw, raws: seq<Raw>, tail: seq<byte>)
    requires WellFormed(raw) && AllWellFormed(raws)
    requires |Print(raw)| <= |s| && s == Print(raw) + s[|Print(raw)|..]
    requires PrintAll(raws) + tail == s[|Print(raw)|..]
    ensures AllWellFormed([raw] + raws) && PrintAll([raw] + raws) + tail == s
  {
    hide Print, WellFormed;
    assert ([raw] + raws)[1..] == raws;
    assert Print(raw) + PrintAll(raws) + tail == Print(raw) + (PrintAll(raws) + tail);
  }

  // ---- Option numbers ----------------------------------------------------------------------

  /** Option numbers are running sums of the deltas, in `uint16_t`. */
  function Numbered(raws: seq<Raw>, number: uint16): seq<Opt>
    requires AllWellFormed(raws)
  {
    if raws == [] then []
    else
      var n := U16(number + Extended(raws[0].deltaNibble, raws[0].deltaExt));
      [Opt(n, raws[0].value)] + Numbered(raws[1..], n)
  }

  function Nibble(x: uint16): nibble {
    if x < 13 then x else if x < 269 then 13 else 14
  }

  function Extension(x: uint16): seq<byte> {
    if x < 13 then [] else if x < 269 then [x - 13] else [(x - 269) / 0x100, (x - 269) % 0x100]
  }

  lemma ExtensionRoundTrip(x: uint16)
    ensures ExtFits(Nibble(x), Extension(x)) && Extended(Nibble(x), Extension(x)) == x
  {
  }

  function RawOf(opt: Opt, previous: uint16): Raw {
    var delta, length := U16(opt.number - previous), U16(|opt.value|);
    Raw(Nibble(delta), Extension(delta), Nibble(length), Extension(length), opt.value)
  }

  function RawsOf(options: seq<Opt>, previous: uint16): (r: seq<Raw>)
    ensures |r| == |options|
  {
    if options == [] then [] else [RawOf(options[0], previous)] + RawsOf(options[1..], options[0].number)
  }

  ghost predicate ShortValues(options: seq<Opt>) {
    forall i :: 0 <= i < |options| ==> |options[i].value| <= 0xFFFF
  }

  lemma RawOfShort(opt: Opt, previous: uint16)
    requires |opt.value| <= 0xFFFF
    ensures var r := RawOf(opt, previous);
            WellFormed(r) && U16(previous + Extended(r.deltaNibble, r.deltaExt)) == opt.number
  {
    ExtensionRoundTrip(U16(opt.number - previous));
    ExtensionRoundTrip(U16(|opt.value|));
  }

  /** Encoding any list of options, in any order, and reading the numbers back: the uint16 wrap-around cancels. */
  lemma {:induction false} NumbersRoundTrip(options: seq<Opt>, previous: uint16)
    requires ShortValues(options)
    ensures AllWellFormed(RawsOf(options, previous)) && Numbered(RawsOf(options, previous), previous) == options
  {
    if options != [] {
      RawOfShort(options[0], previous);
      NumbersRoundTrip(options[1..], options[0].number);
      var raws := RawsOf(options, previous);
      assert raws[1..] == RawsOf(options[1..], options[0].number);
      forall i | 0 <= i < |raws| ensures WellFormed(raws[i]) {
        if i > 0 { assert raws[i] == raws[1..][i - 1]; }
      }
    }
  }

  // ---- Options by number: the multimap -----------------------------------------------------

  /** The values filed under `n`, in order of arrival. */
  function ValuesOf(options: seq<Opt>, n: uint16): seq<seq<byte>> {
    if options == [] then []
    else
      var before, last := ValuesOf(options[..|options| - 1], n), options[|options| - 1];
      if last.number == n then before + [last.value] else before
  }

  /** `std::multimap::emplace`: equal keys keep their order of insertion. */
  function Emplace(m: map<uint16, seq<seq<byte>>>, o: Opt): map<uint16, seq<seq<byte>>> {
    m[o.number := (if o.number in m then m[o.number] else []) + [o.value]]
  }

  function ByNumber(options: seq<Opt>): map<uint16, seq<seq<byte>>> {
    if options == [] then map[] else Emplace(ByNumber(options[..|options| - 1]), options[|options| - 1])
  }

  function Filed(m: map<uint16, seq<seq<byte>>>, n: uint16): seq<seq<byte>> {
    if n in m then m[n] else []
  }

  lemma {:induction false} ByNumberFiles(options: seq<Opt>, n: uint16)
    ensures Filed(ByNumber(options), n) == ValuesOf(options, n)
  {
    if options != [] {
      ByNumberFiles(options[..|options| - 1], n);
    }
  }

  lemma {:induction false} ValuesOfConcat(a: seq<Opt>, b: seq<Opt>, n: uint16)
    ensures ValuesOf(a + b, n) == ValuesOf(a, n) + ValuesOf(b, n)
  {
    if b == [] {
      assert a + b == a;
    } else {
      var k := |b| - 1;
      ValuesOfConcat(a, b[..k], n);
      assert (a + b)[..|a| + k] == a + b[..k];
    }
  }

  // ---- Whole messages ----------------------------------------------------------------------

  function DecodedOptions(s: seq<byte>, number: uint16): Option<(seq<Opt>, seq<byte>)> {
    match ParseAll(s)
    case None => None
    case Some(p) => PrintUndoesParse(s); Some((Numbered(p.raws, number), p.tail))
  }

  function Payload(tail: seq<byte>): seq<byte> {
    if tail == [] then [] else tail[1..]
  }

  function Decoded(data: seq<byte>): Option<Message> {
    if |data| < 4 then None
    else
      var tokenLength := data[0] % 16;
      if tokenLength > 12 || |data| - 4 < tokenLength then None
      else
        match DecodedOptions(data[4 + tokenLength..], 0)
        case None => None
        case Some(read) =>
          Some(Message(data[0] / 64, data[0] / 16 % 4, data[1], data[2] as int * 0x100 + data[3] as int,
                       data[4..4 + tokenLength], [], ByNumber(read.0), Payload(read.1)))
  }

  function Header(m: Message, tokenLength: nat): (r: seq<byte>)
    requires tokenLength <= 12
    ensures |r| == 4
  {
    [m.version % 4 * 64 + m.kind * 16 + tokenLength, m.code, m.messageId / 0x100, m.messageId % 0x100]
  }

  function Tail(payload: seq<byte>): seq<byte> {
    if payload == [] then [] else [0xFF] + payload
  }

  function Encoded(m: Message): seq<byte> {
    var tokenLength := |m.token| % 0x100;
    if tokenLength > 12 then []
    else Header(m, tokenLength) + m.token[..tokenLength] + PrintAll(RawsOf(m.options, 0)) + Tail(m.payload)
  }

  method EncodeExtended(x: uint16, extra: seq<byte>) returns (base: nibble, extra': seq<byte>)
    ensures base == Nibble(x) && extra' == extra + Extension(x)
  {
    if x < 13 {
      return x, extra;
    } else if x < 269 {
      return 13, extra + [x - 13];
    } else {
      base := 14;
      extra' := extra + [(x - 269) / 0x100];
      extra' := extra' + [(x - 269) % 0x100];
    }
  }

  /** The source also sorts a copy of the options, but then walks the unsorted ones. */
  method Encode(m: Message) returns (out: seq<byte>)
    ensures out == Encoded(m)
  {
    hide RawOf;
    var tokenLen := |m.token| % 0x100;
    if tokenLen > 12 {
      return [];
    }
    out := Header(m, tokenLen);
    out := out + m.token[..tokenLen];
    ghost var front := out;
    var optionNumber: uint16 := 0;
    for i := 0 to |m.options|
      invariant out + PrintAll(RawsOf(m.options[i..], optionNumber)) == front + PrintAll(RawsOf(m.options, 0))
    {
      var opt := m.options[i];
      assert m.options[i..][1..] == m.options[i + 1..];
      PrintAllCons(RawOf(opt, optionNumber), RawsOf(m.options[i + 1..], opt.number));
      ghost var before := out;
      out := EncodeOption(out, opt, optionNumber);
      Regroup(before, Print(RawOf(opt, optionNumber)), PrintAll(RawsOf(m.options[i + 1..], opt.number)));
      optionNumber := opt.number;
    }
    assert PrintAll(RawsOf(m.options[|m.options|..], optionNumber)) == [];
    if m.payload != [] {
      out := out + [0xFF];
      out := out + m.payload;
    }
  }

  method EncodeOption(out: seq<byte>, opt: Opt, optionNumber: uint16) returns (out': seq<byte>)
    ensures out' == out + Print(RawOf(opt, optionNumber))
  {
    hide Nibble, Extension;
    var delta, length := U16(opt.number - optionNumber), U16(|opt.value|);
    var baseDelta, ext := EncodeExtended(delta, []);
    var baseLen, ext' := EncodeExtended(length, ext);
    out' := out + [baseDelta as int * 16 + baseLen as int];
    out' := out' + ext';
    out' := out' + opt.value;
    assert [] + Extension(delta) == Extension(delta);
    Gather(out, [baseDelta as int * 16 + baseLen as int], Extension(delta), Extension(length), opt.value);
  }

  lemma PrintAllCons(raw: Raw, raws: seq<Raw>)
    ensures PrintAll([raw] + raws) == Print(raw) + PrintAll(raws)
  {
    assert ([raw] + raws)[1..] == raws;
  }

  method ReadExtended(data: seq<byte>, start: nat, n: nibble) returns (r: Option<(uint16, nat)>)
    requires start <= |data|
    ensures r == if n == 15 || start + ExtSize(n) > |data| then None
                 else Some((Extended(n, data[start..start + ExtSize(n)]), start + ExtSize(n)))
  {
    var p, remaining := start, |data| - start;
    if n < 13 {
      return Some((n, p));
    } else if n == 13 {
      if remaining < 1 {
        return None;
      }
      return Some((13 + data[p] as int, p + 1));
    } else if n == 14 {
      if remaining < 2 {
        return None;
      }
      return Some((U16(269 + 0x100 * (data[p] as int) + data[p + 1] as int), p + 2));
    } else {
      return None;
    }
  }

  /** One round of the option loop. */
  method DecodeOption(data: seq<byte>, start: nat) returns (r: Option<(uint16, seq<byte>, nat)>)
    requires start < |data|
    ensures match ParseOne(data[start..])
            case None => r == None
            case Some(raw) => r == Some((Extended(raw.deltaNibble, raw.deltaExt), raw.value, start + |Print(raw)|))
  {
    hide Extended;
    var optHdr := data[start];
    var deltaNibble: nibble, lengthNibble: nibble := optHdr / 16, optHdr % 16;
    var delta := ReadExtended(data, start + 1, deltaNibble);
    if delta == None {
      return None;
    }
    var p := delta.value.1;
    Subslice(data, start, 1, 1 + ExtSize(deltaNibble));
    var length := ReadExtended(data, p, lengthNibble);
    if length == None {
      return None;
    }
    p := length.value.1;
    Subslice(data, start, 1 + ExtSize(deltaNibble), 1 + ExtSize(deltaNibble) + ExtSize(lengthNibble));
    if |data| - p < length.value.0 {
      return None;
    }
    Subslice(data, start, p - start, p - start + length.value.0);
    return Some((delta.value.0, data[p..p + length.value.0], p + length.value.0));
  }

  lemma OptionStep(s: seq<byte>, number: uint16)
    requires !IsTail(s)
    ensures match ParseOne(s)
            case None => DecodedOptions(s, number) == None
            case Some(raw) =>
              var n := U16(number + Extended(raw.deltaNibble, raw.deltaExt));
              match DecodedOptions(s[|Print(raw)|..], n)
              case None => DecodedOptions(s, number) == None
              case Some(rest) => DecodedOptions(s, number) == Some(([Opt(n, raw.value)] + rest.0, rest.1))
  {
    hide ParseOne, Print, Extended, WellFormed;
    if ParseOne(s).Some? && ParseAll(s).Some? {
      PrintUndoesParse(s);
      var raw := ParseOne(s).value;
      var rest := ParseAll(s[|Print(raw)|..]).value;
      assert ([raw] + rest.raws)[1..] == rest.raws;
    }
  }

  function Joined(done: seq<Opt>, r: Option<(seq<Opt>, seq<byte>)>): Option<(seq<Opt>, seq<byte>)> {
    match r
    case None => None
    case Some(read) => Some((done + read.0, read.1))
  }

  method DecodeOptions(data: seq<byte>, start: nat) returns (r: Option<(map<uint16, seq<seq<byte>>>, seq<byte>)>)
    requires start <= |data|
    ensures match DecodedOptions(data[start..], 0)
            case None => r == None
            case Some(read) => r == Some((ByNumber(read.0), Payload(read.1)))
  {
    hide ParseOne, Print, Extended, WellFormed, DecodedOptions, ParseAll, ByNumber, Emplace;
    var p := start;
    var currentOptionNumber: uint16 := 0;
    var optionsMap := map[];
    ghost var done: seq<Opt> := [];
    ghost var whole := DecodedOptions(data[start..], 0);
    JoinedStart(whole);
    ByNumberSnoc([], Opt(0, []));
    while p < |data| && data[p] != 0xFF
      invariant start <= p <= |data|
      invariant whole == Joined(done, DecodedOptions(data[p..], currentOptionNumber))
      invariant optionsMap == ByNumber(done)
      decreases |data| - p
    {
      OptionStep(data[p..], currentOptionNumber);
      var option := DecodeOption(data, p);
      if option == None {
        return None;
      }
      var (delta, value, next) := option.value;
      FrontOption(data[p..]);
      assert data[p..][next - p..] == data[next..];
      currentOptionNumber := U16(currentOptionNumber + delta);
      var opt := Opt(currentOptionNumber, value);
      JoinedStep(done, opt, DecodedOptions(data[next..], currentOptionNumber));
      ByNumberSnoc(done, opt);
      optionsMap := Emplace(optionsMap, opt);
      done := done + [opt];
      p := next;
    }
    TailOptions(data[p..], currentOptionNumber);
    assert done + [] == done;
    if p < |data| {
      p := p + 1;
      assert data[p - 1..][1..] == data[p..];
    }
    return Some((optionsMap, data[p..]));
  }

  lemma TailOptions(s: seq<byte>, number: uint16)
    requires IsTail(s)
    ensures DecodedOptions(s, number) == Some(([], s))
  {
  }

  lemma ByNumberSnoc(done: seq<Opt>, opt: Opt)
    ensures ByNumber([]) == map[] && ByNumber(done + [opt]) == Emplace(ByNumber(done), opt)
  {
    assert (done + [opt])[..|done|] == done;
  }

  lemma JoinedStart(r: Option<(seq<Opt>, seq<byte>)>)
    ensures Joined([], r) == r
  {
    if r.Some? {
      assert [] + r.value.0 == r.value.0;
    }
  }

  lemma JoinedStep(done: seq<Opt>, opt: Opt, r: Option<(seq<Opt>, seq<byte>)>)
    ensures Joined(done, Joined([opt], r)) == Joined(done + [opt], r)
  {
    if r.Some? {
      assert done + ([opt] + r.value.0) == done + [opt] + r.value.0;
    }
  }

  method Decode(data: seq<byte>) returns (r: Option<Message>)
    ensures r == Decoded(data)
  {
    if |data| < 4 {
      return None;
    }
    var hdr := data[0];
    var tokenLength := hdr % 16;
    if tokenLength > 12 || |data| - 4 < tokenLength {
      return None;
    }
    var options := DecodeOptions(data, 4 + tokenLength);
    if options == None {
      return None;
    }
    return Some(Message(hdr / 64, hdr / 16 % 4, data[1], data[2] as int * 0x100 + data[3] as int,
                        data[4..4 + tokenLength], [], options.value.0, options.value.1));
  }
}
