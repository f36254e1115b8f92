/**
  The wire form of a target response: LEN DATA CRC with every octet escaped. Three encoders of
  the repository (protocol/slave_encode.go, AA23, AA25) and one validator are tied to one
  definition, `Response`.
  */
module Wire {
  import opened Octets
  import opened Crc

  const MAX_NATIVE_LENGTH := 255
  const MAX_PREPARED_PAYLOAD := 16

  // ---- Escaping ----

  function EscapeOne(b: byte): seq<byte> {
    if b == ESC then [ESC, 0x00] else if b == SYN then [ESC, 0x01] else [b]
  }

  function Escape(logical: seq<byte>): seq<byte> {
    if logical == [] then [] else EscapeOne(logical[0]) + Escape(logical[1..])
  }

  /** Reads a wire string back; None for a raw SYN, a cut pair or an unknown pair. */
  function Unescape(wire: seq<byte>): Option<seq<byte>> {
    if wire == [] then Some([])
    else if wire[0] == SYN then None
    else if wire[0] == ESC then
      if |wire| < 2 || (wire[1] != 0x00 && wire[1] != 0x01) then None
      else Prepend(if wire[1] == 0x00 then ESC else SYN, Unescape(wire[2..]))
    else Prepend(wire[0], Unescape(wire[1..]))
  }

  function Prepend(b: byte, rest: Option<seq<byte>>): Option<seq<byte>> {
    if rest.None? then None else Some([b] + rest.value)
  }

  lemma {:induction false} EscapeConcat(a: seq<byte>, b: seq<byte>)
    ensures Escape(a + b) == Escape(a) + Escape(b)
  {
    if a == [] {
      assert a + b == b;
    } else {
      assert (a + b)[1..] == a[1..] + b;
      EscapeConcat(a[1..], b);
    }
  }

  lemma EscapeSnoc(s: seq<byte>, b: byte)
    ensures Escape(s + [b]) == Escape(s) + EscapeOne(b)
  {
    EscapeConcat(s, [b]);
    assert [b][1..] == [];
    assert Escape([]) == [];
    assert Escape([b]) == EscapeOne(b);
  }

  /** The second symbol of a pair completes the escaped octet it began. */
  lemma PairCompletes(taken: seq<byte>, raw: seq<byte>, b: byte)
    requires raw == Escape(taken) + [ESC] && (b == 0 || b == 1)
    ensures raw + [b] == Escape(taken + [if b == 0 then ESC else SYN])
  {
    EscapeSnoc(taken, if b == 0 then ESC else SYN);
  }

  lemma PlainCompletes(taken: seq<byte>, raw: seq<byte>, b: byte)
    requires raw == Escape(taken) + [] && b != ESC && b != SYN
    ensures raw + [b] == Escape(taken + [b])
  {
    EscapeSnoc(taken, b);
  }

  /** Escaping produces no raw SYN. */
  lemma {:induction false} EscapeHasNoSyn(logical: seq<byte>)
    ensures SYN !in Escape(logical)
  {
    if logical != [] {
      EscapeHasNoSyn(logical[1..]);
    }
  }

  lemma UnescapeOne(b: byte, rest: seq<byte>)
    ensures Unescape(EscapeOne(b) + rest) == Prepend(b, Unescape(rest))
  {
    var wire := EscapeOne(b) + rest;
    assert wire[|EscapeOne(b)|..] == rest;
  }

  /** What was read so far, followed by what the rest reads as. */
  function Joined(sofar: seq<byte>, rest: Option<seq<byte>>): Option<seq<byte>> {
    if rest.None? then None else Some(sofar + rest.value)
  }

  lemma JoinedPrepend(sofar: seq<byte>, b: byte, rest: Option<seq<byte>>)
    ensures Joined(sofar, Prepend(b, rest)) == Joined(sofar + [b], rest)
  {
    if rest.Some? {
      assert sofar + ([b] + rest.value) == (sofar + [b]) + rest.value;
    }
  }

  lemma UnescapeEmpty()
    ensures Unescape([]) == Some([])
  {
  }

  lemma {:induction false} UnescapeEscape(logical: seq<byte>)
    ensures Unescape(Escape(logical)) == Some(logical)
  {
    hide Unescape;
    if logical == [] {
      UnescapeEmpty();
    } else {
      UnescapeEscape(logical[1..]);
      UnescapeOne(logical[0], Escape(logical[1..]));
      assert logical == [logical[0]] + logical[1..];
    }
  }

  /** Every wire string that reads back is the escaped form of what was read. */
  lemma {:induction false} EscapeUnescape(wire: seq<byte>)
    requires Unescape(wire).Some?
    ensures Escape(Unescape(wire).value) == wire
    decreases |wire|
  {
    if wire != [] {
      if wire[0] == ESC {
        EscapeUnescape(wire[2..]);
        assert Unescape(wire).value[1..] == Unescape(wire[2..]).value;
        assert wire == [ESC, wire[1]] + wire[2..];
      } else {
        EscapeUnescape(wire[1..]);
        assert Unescape(wire).value[1..] == Unescape(wire[1..]).value;
        assert wire == [wire[0]] + wire[1..];
      }
    }
  }

  method EscapeBytes(raw: seq<byte>) returns (escaped: seq<byte>)
    ensures escaped == Escape(raw)
  {
    hide Step;
    escaped := [];
    for i := 0 to |raw|
      invariant escaped == Escape(raw[..i])
    {
      assert raw[..i + 1] == raw[..i] + [raw[i]];
      EscapeConcat(raw[..i], [raw[i]]);
      assert Escape([raw[i]]) == EscapeOne(raw[i]);
      if raw[i] == ESC {
        escaped := escaped + [ESC, 0x00];
      } else if raw[i] == SYN {
        escaped := escaped + [ESC, 0x01];
      } else {
        escaped := escaped + [raw[i]];
      }
    }
    assert raw[..|raw|] == raw;
  }

  // ---- CRC over logical bytes ----

  /** The CRC of logical bytes is the CRC of their wire form. */
  function LogicalCrc(logical: seq<byte>): byte {
    Run(0, Escape(logical))
  }

  lemma LogicalCrcAppend(logical: seq<byte>, b: byte)
    ensures LogicalCrc(logical + [b]) == Run(LogicalCrc(logical), EscapeOne(b))
  {
    hide Step;
    EscapeConcat(logical, [b]);
    assert Escape([b]) == EscapeOne(b);
    RunAppend(0, Escape(logical), EscapeOne(b));
  }

  lemma RunEscapeOne(c: byte, b: byte)
    ensures Run(c, EscapeOne(b)) ==
            if b == ESC then Step(Step(c, ESC), 0x00)
            else if b == SYN then Step(Step(c, ESC), 0x01) else Step(c, b)
  {
    hide Step;
    if b == ESC || b == SYN {
      var pair := EscapeOne(b);
      assert pair[1..][1..] == [];
      assert Run(c, pair) == Run(Step(c, pair[0]), pair[1..]) == Run(Step(Step(c, pair[0]), pair[1]), []);
    }
  }

  /** One more logical byte: its escaped form is appended and the CRC runs over that form. */
  lemma AppendLogical(sofar: seq<byte>, b: byte)
    ensures Escape(sofar + [b]) == Escape(sofar) + EscapeOne(b)
    ensures LogicalCrc(sofar + [b]) == Run(LogicalCrc(sofar), EscapeOne(b))
  {
    hide Step;
    LogicalCrcAppend(sofar, b);
    EscapeConcat(sofar, [b]);
    assert Escape([b]) == EscapeOne(b);
  }

  lemma EmptyLogical()
    ensures Escape([]) == [] && LogicalCrc([]) == 0
  {
  }

  /** protocol.CRC: table updates over logical bytes with the substitution applied inside. */
  method LogicalCrcTable(data: seq<byte>) returns (value: byte)
    ensures value == LogicalCrc(data)
  {
    hide Step;
    value := 0;
    for i := 0 to |data|
      invariant value == LogicalCrc(data[..i])
    {
      var b := data[i];
      assert data[..i + 1] == data[..i] + [b];
      LogicalCrcAppend(data[..i], b);
      RunEscapeOne(value, b);
      if b == ESC {
        value := Update(value, ESC);
        value := Update(value, 0x00);
      } else if b == SYN {
        value := Update(value, ESC);
        value := Update(value, 0x01);
      } else {
        value := Update(value, b);
      }
    }
    assert data[..|data|] == data;
  }

  /** aa23CRCUpdate: the bit-serial form fed one logical byte. */
  method LogicalCrcBitwise(crc: byte, b: byte) returns (r: byte)
    ensures r == Run(crc, EscapeOne(b))
  {
    hide Step;
    RunEscapeOne(crc, b);
    if b == ESC {
      r := BitwiseStep(crc, ESC);
      r := BitwiseStep(r, 0x00);
    } else if b == SYN {
      r := BitwiseStep(crc, ESC);
      r := BitwiseStep(r, 0x01);
    } else {
      r := BitwiseStep(crc, b);
    }
  }

  // ---- The native response ----

  function Segment(data: seq<byte>): seq<byte>
    requires |data| <= MAX_NATIVE_LENGTH
  {
    [|data|] + data
  }

  /** LEN DATA CRC, escaped. */
  function Response(data: seq<byte>): seq<byte>
    requires |data| <= MAX_NATIVE_LENGTH
  {
    Escape(Segment(data) + [LogicalCrc(Segment(data))])
  }

  /** The logical content of a response: a length that fits and a CRC that matches. */
  predicate IsSegment(logical: seq<byte>) {
    && |logical| >= 2
    && |logical| - 2 == logical[0]
    && logical[|logical| - 1] == LogicalCrc(logical[..|logical| - 1])
  }

  lemma SegmentIsResponse(wire: seq<byte>, logical: seq<byte>)
    requires wire == Escape(logical) && IsSegment(logical)
    ensures exists data: seq<byte> :: |data| <= MAX_NATIVE_LENGTH && wire == Response(data)
  {
    hide Step;
    var data := logical[1..|logical| - 1];
    assert Segment(data) == logical[..|logical| - 1];
    assert logical == Segment(data) + [LogicalCrc(Segment(data))];
    assert |data| <= MAX_NATIVE_LENGTH && wire == Response(data);
  }

  lemma ResponseIsSegment(data: seq<byte>)
    requires |data| <= MAX_NATIVE_LENGTH
    ensures Unescape(Response(data)).Some? && IsSegment(Unescape(Response(data)).value)
  {
    hide Step;
    var logical := Segment(data) + [LogicalCrc(Segment(data))];
    UnescapeEscape(logical);
    assert logical[..|logical| - 1] == Segment(data);
  }

  /** Two payloads with the same wire form are the same payload. */
  lemma ResponseInjective(a: seq<byte>, b: seq<byte>)
    requires |a| <= MAX_NATIVE_LENGTH && |b| <= MAX_NATIVE_LENGTH
    requires Response(a) == Response(b)
    ensures a == b
  {
    hide Step;
    var la := Segment(a) + [LogicalCrc(Segment(a))];
    var lb := Segment(b) + [LogicalCrc(Segment(b))];
    UnescapeEscape(la);
    UnescapeEscape(lb);
    assert la[1..|la| - 1] == a && lb[1..|lb| - 1] == b;
  }

  /** EncodeSlaveResponse: build the segment, append its CRC, escape the whole. */
  method EncodeSlaveResponse(data: seq<byte>) returns (r: Option<seq<byte>>)
    ensures r.None? <==> |data| > MAX_NATIVE_LENGTH
    ensures r.Some? ==> r.value == Response(data)
  {
    hide Step;
    if |data| > MAX_NATIVE_LENGTH {
      return None;
    }
    var segment := [|data|];
    segment := segment + data;
    var crc := LogicalCrcTable(segment);
    segment := segment + [crc];
    var wire := EscapeBytes(segment);
    r := Some(wire);
  }

  /** The loop of AA23EncodeResponse: length and data, each escaped and summed as it is appended. */
  method AppendBody(dst: seq<byte>, data: seq<byte>) returns (out: seq<byte>, crc: byte)
    requires |data| <= MAX_NATIVE_LENGTH
    ensures out == dst + Escape(Segment(data))
    ensures crc == LogicalCrc(Segment(data))
  {
    hide Step, Escape, Run, LogicalCrc;
    var length := |data|;
    EmptyLogical();
    AppendLogical([], length);
    ghost var logical: seq<byte> := [length];
    assert [] + [length] == logical;
    crc := LogicalCrcBitwise(0, length);
    out := dst + EscapeOne(length);
    assert out == dst + Escape(logical);
    for i := 0 to |data|
      invariant logical == [length] + data[..i]
      invariant out == dst + Escape(logical)
      invariant crc == LogicalCrc(logical)
    {
      AppendLogical(logical, data[i]);
      crc := LogicalCrcBitwise(crc, data[i]);
      out := out + EscapeOne(data[i]);
      logical := logical + [data[i]];
    }
    assert logical == Segment(data);
  }

  /** AA23EncodeResponse: one pass, CRC and escaping together, appended to dst. */
  method EncodeResponse(dst: seq<byte>, data: seq<byte>) returns (out: seq<byte>, ok: bool)
    ensures ok <==> |data| <= MAX_NATIVE_LENGTH
    ensures out == if ok then dst + Response(data) else dst
  {
    hide Step;
    if |data| > MAX_NATIVE_LENGTH {
      return dst, false;
    }
    var crc: byte;
    out, crc := AppendBody(dst, data);
    AppendLogical(Segment(data), crc);
    out, ok := out + EscapeOne(crc), true;
  }

  const MAX_PREPARED_WIRE := 1 + 2 * (1 + MAX_PREPARED_PAYLOAD + 1)

  /** The fixed wire buffer of a prepared response and how much of it is used. */
  class WireBuffer {
    const symbols: array<byte>
    var length: nat

    ghost predicate Valid()
      reads this
    {
      length <= symbols.Length
    }

    ghost function Contents(): seq<byte>
      requires Valid()
      reads this, symbols
    {
      symbols[..length]
    }

    constructor ()
      ensures Valid() && fresh(symbols) && symbols.Length == MAX_PREPARED_WIRE && Contents() == []
    {
      symbols := new byte[MAX_PREPARED_WIRE];
      length := 0;
    }

    method AppendRaw(symbol: byte)
      requires Valid() && length < symbols.Length
      modifies this`length, symbols
      ensures Valid() && Contents() == old(Contents()) + [symbol] && length == old(length) + 1
    {
      symbols[length] := symbol;
      length := length + 1;
    }

    /** Writes the escaped form symbol by symbol and returns the CRC over that form. */
    method AppendLogical(value: byte, crc: byte) returns (next: byte)
      requires Valid() && length + 2 <= symbols.Length
      modifies this`length, symbols
      ensures Valid() && Contents() == old(Contents()) + EscapeOne(value) && next == Run(crc, EscapeOne(value))
      ensures old(length) < length <= old(length) + 2
    {
      hide Step;
      RunEscapeOne(crc, value);
      if value == ESC {
        AppendRaw(ESC);
        AppendRaw(0x00);
        next := BitwiseStep(crc, ESC);
        next := BitwiseStep(next, 0x00);
      } else if value == SYN {
        AppendRaw(ESC);
        AppendRaw(0x01);
        next := BitwiseStep(crc, ESC);
        next := BitwiseStep(next, 0x01);
      } else {
        AppendRaw(value);
        next := BitwiseStep(crc, value);
      }
    }
  }

  /**
    AA25PrepareResponse: the raw ACK first, then one CRC that runs over the escaped symbols as they
    are written into the buffer; the CRC of its own symbols is not used. The buffer always suffices.
    */
  method PrepareResponse(generation: nat, payload: seq<byte>) returns (r: Option<seq<byte>>)
    ensures r.None? <==> generation == 0 || |payload| > MAX_PREPARED_PAYLOAD
    ensures r.Some? ==> r.value == [ACK] + Response(payload)
    ensures r.Some? ==> 0 < |r.value| <= MAX_PREPARED_WIRE
  {
    hide Step, Escape, Run, LogicalCrc;
    if generation == 0 || |payload| > MAX_PREPARED_PAYLOAD {
      return None;
    }
    var length := |payload|;
    var buffer := new WireBuffer();
    buffer.AppendRaw(ACK);
    EmptyLogical();
    AppendLogical([], length);
    ghost var logical: seq<byte> := [length];
    assert [] + [length] == logical;
    var crc := buffer.AppendLogical(length, 0);
    for i := 0 to |payload|
      invariant buffer.Valid() && fresh(buffer) && fresh(buffer.symbols) && buffer.symbols.Length == MAX_PREPARED_WIRE
      invariant logical == [length] + payload[..i] && buffer.length <= 3 + 2 * i
      invariant buffer.Contents() == [ACK] + Escape(logical)
      invariant crc == LogicalCrc(logical)
    {
      AppendLogical(logical, payload[i]);
      crc := buffer.AppendLogical(payload[i], crc);
      logical := logical + [payload[i]];
    }
    assert logical == Segment(payload);
    AppendLogical(logical, crc);
    var unused := buffer.AppendLogical(crc, crc);
    r := Some(buffer.symbols[..buffer.length]);
  }

  lemma {:induction false} EscapeLength(logical: seq<byte>)
    ensures |logical| <= |Escape(logical)| <= 2 * |logical|
  {
    if logical != [] {
      EscapeLength(logical[1..]);
    }
  }

  /**
    aa23ValidateEncodedResponse: one pass over the wire bytes. It accepts exactly the images of the
    encoder.
    */
  method ValidateEncodedResponse(wire: seq<byte>) returns (ok: bool)
    ensures ok <==> exists data: seq<byte> :: |data| <= MAX_NATIVE_LENGTH && wire == Response(data)
  {
    hide Step, Unescape, Response, LogicalCrc;
    var crc: byte := 0;
    ghost var logical: seq<byte> := [];
    var decoded: nat := 0;
    var declared: int, received: int := -1, -1;
    var offset: nat := 0;
    ScanStart(wire);
    while offset < |wire|
      invariant 0 <= offset <= |wire|
      invariant Unescape(wire) == Joined(logical, Unescape(wire[offset..]))
      invariant decoded == |logical|
      invariant Scanned(logical, declared, received, crc)
    {
      var value, width := ReadSymbol(wire, offset);
      if width == 0 {
        NotAnImage(wire);
        return false;
      }
      offset := offset + width;
      JoinedPrepend(logical, value, Unescape(wire[offset..]));
      if decoded == 0 {
        declared := value;
      }
      ScannedNext(logical, declared, received, crc, value);
      if decoded == declared + 1 {
        received := value;
      } else {
        crc := LogicalCrcBitwise(crc, value);
      }
      decoded := decoded + 1;
      logical := logical + [value];
    }
    ScanEnd(wire, logical);
    ok := !(declared < 0 || decoded != declared + 2 || received != crc);
    ImageIffSegment(wire, logical);
  }

  lemma ScanStart(wire: seq<byte>)
    ensures Unescape(wire) == Joined([], Unescape(wire[0..]))
    ensures Scanned([], -1, -1, 0)
  {
    hide Step;
    assert wire[0..] == wire;
    if Unescape(wire).Some? {
      assert [] + Unescape(wire).value == Unescape(wire).value;
    }
  }

  lemma ScanEnd(wire: seq<byte>, logical: seq<byte>)
    ensures Joined(logical, Unescape(wire[|wire|..])) == Some(logical)
  {
    assert wire[|wire|..] == [];
    assert logical + [] == logical;
  }

  /** One logical byte at an offset; width 0 for a raw SYN, a cut pair or an unknown pair. */
  method ReadSymbol(wire: seq<byte>, offset: nat) returns (value: byte, width: nat)
    requires offset < |wire|
    ensures offset + width <= |wire|
    ensures width == 0 ==> Unescape(wire[offset..]).None?
    ensures width != 0 ==> Unescape(wire[offset..]) == Prepend(value, Unescape(wire[offset + width..]))
  {
    value := wire[offset];
    width := 1;
    ghost var rest := wire[offset..];
    assert rest[1..] == wire[offset + 1..];
    if value == SYN {
      return SYN, 0;
    }
    if value == ESC {
      if offset + 1 >= |wire| {
        return ESC, 0;
      }
      assert rest[2..] == wire[offset + 2..];
      width := 2;
      if wire[offset + 1] == 0x00 {
        value := ESC;
      } else if wire[offset + 1] == 0x01 {
        value := SYN;
      } else {
        return ESC, 0;
      }
    }
  }

  /** What the validator has learned from the logical bytes read so far. */
  ghost predicate Scanned(logical: seq<byte>, declared: int, received: int, crc: byte) {
    && declared == (if logical == [] then -1 else logical[0])
    && (logical == [] || |logical| <= declared + 1 ==> crc == LogicalCrc(logical))
    && (logical != [] && |logical| == declared + 2 ==>
          crc == LogicalCrc(logical[..|logical| - 1]) && received == logical[|logical| - 1])
  }

  lemma ScannedNext(logical: seq<byte>, declared: int, received: int, crc: byte, value: byte)
    requires logical == [] ==> declared == value
    requires Scanned(logical, if logical == [] then -1 else declared, received, crc)
    ensures |logical| == declared + 1 ==> Scanned(logical + [value], declared, value, crc)
    ensures |logical| != declared + 1 ==>
              Scanned(logical + [value], declared, received, Run(crc, EscapeOne(value)))
  {
    hide Step;
    LogicalCrcAppend(logical, value);
    assert (logical + [value])[..|logical|] == logical;
  }

  lemma ImageIffSegment(wire: seq<byte>, logical: seq<byte>)
    requires Unescape(wire) == Some(logical)
    ensures IsSegment(logical) <==>
            exists data: seq<byte> :: |data| <= MAX_NATIVE_LENGTH && wire == Response(data)
  {
    hide Step;
    EscapeUnescape(wire);
    if IsSegment(logical) {
      SegmentIsResponse(wire, logical);
    }
    if exists data: seq<byte> :: |data| <= MAX_NATIVE_LENGTH && wire == Response(data) {
      var data: seq<byte> :| |data| <= MAX_NATIVE_LENGTH && wire == Response(data);
      ResponseIsSegment(data);
    }
  }

  lemma NotAnImage(wire: seq<byte>)
    requires Unescape(wire).None?
    ensures !exists data: seq<byte> :: |data| <= MAX_NATIVE_LENGTH && wire == Response(data)
  {
    forall data: seq<byte> | |data| <= MAX_NATIVE_LENGTH
      ensures wire != Response(data)
    {
      UnescapeEscape(Segment(data) + [LogicalCrc(Segment(data))]);
    }
  }
}
