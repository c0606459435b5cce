/** WebSocket frames: sections 5.2, 5.3 and 5.5 of RFC 6455, as the push socket writes and reads them. */
module Frames {
  import opened Wrappers

  /** Bytes as numbers; the bit tests of the source are written as the arithmetic they amount to. */
  newtype byte = x: int | 0 <= x < 256

  const MAX_MESSAGE_BYTES := 0x1_0000
  const TEXT: byte := 0x1
  const CLOSE: byte := 0x8
  const PING: byte := 0x9
  const PONG: byte := 0xA

  // ---------------------------------------------------------------- big-endian lengths

  function Power(k: nat): nat {
    if k == 0 then 1 else 256 * Power(k - 1)
  }

  function BigEndian(n: nat, k: nat): (bytes: seq<byte>)
    ensures |bytes| == k
  {
    if k == 0 then [] else BigEndian(n / 256, k - 1) + [(n % 256) as byte]
  }

  function Number(bytes: seq<byte>): nat {
    if bytes == [] then 0 else 256 * Number(bytes[..|bytes| - 1]) + bytes[|bytes| - 1] as nat
  }

  lemma {:induction false} NumberOfBigEndian(n: nat, k: nat)
    requires n < Power(k)
    ensures Number(BigEndian(n, k)) == n
  {
    if k > 0 {
      NumberOfBigEndian(n / 256, k - 1);
      var bytes := BigEndian(n, k);
      assert bytes[..k - 1] == BigEndian(n / 256, k - 1);
    }
  }

  lemma {:induction false} BigEndianOfNumber(bytes: seq<byte>)
    ensures Number(bytes) < Power(|bytes|)
    ensures BigEndian(Number(bytes), |bytes|) == bytes
  {
    if bytes != [] {
      var rest, last := bytes[..|bytes| - 1], bytes[|bytes| - 1];
      BigEndianOfNumber(rest);
      assert Number(bytes) / 256 == Number(rest) && Number(bytes) % 256 == last as nat;
    }
  }

  lemma Powers()
    ensures Power(0) == 1 && Power(2) == 0x1_0000 && Power(8) == 0x1_0000_0000_0000_0000
  {
  }

  // ---------------------------------------------------------------- the general frame layout

  /** How many bytes follow the second one to give the length. */
  datatype Form = Short | Medium | Long

  function Extra(form: Form): nat {
    match form case Short => 0 case Medium => 2 case Long => 8
  }

  predicate Fits(form: Form, length: nat) {
    match form
    case Short => length <= 125
    case Medium => length < 0x1_0000
    case Long => length < 0x1_0000_0000_0000_0000
  }

  function ShortestForm(length: nat): Form {
    if length <= 125 then Short else if length <= 65535 then Medium else Long
  }

  function LengthCode(form: Form, length: nat): byte
    requires Fits(form, length)
  {
    match form case Short => length as byte case Medium => 126 case Long => 127
  }

  predicate Final(first: byte) { first >= 0x80 }

  predicate Reserved(first: byte) { (first / 16) % 8 != 0 }

  function Opcode(first: byte): byte { first % 16 }

  predicate MaskBit(second: byte) { second >= 0x80 }

  function FormOf(second: byte): Form {
    var code := second % 0x80;
    if code == 126 then Medium else if code == 127 then Long else Short
  }

  function LengthOf(second: byte, extra: seq<byte>): nat {
    if FormOf(second) == Short then (second % 0x80) as nat else Number(extra)
  }

  /** Exclusive or of the lowest `bits` bits. */
  function XorBits(a: nat, b: nat, bits: nat): (r: nat)
    ensures r < Two(bits)
  {
    if bits == 0 then 0 else 2 * XorBits(a / 2, b / 2, bits - 1) + (a + b) % 2
  }

  function Two(bits: nat): nat {
    if bits == 0 then 1 else 2 * Two(bits - 1)
  }

  /** Adding a bit twice gives it back, whatever stands before it. */
  lemma LastBit(a: nat, b: nat, q: nat, r: nat)
    requires r == 2 * q + (a + b) % 2
    ensures r / 2 == q && (r + b) % 2 == a % 2 && 2 * (a / 2) + a % 2 == a
  {
  }

  lemma {:induction false} XorBitsTwice(a: nat, b: nat, bits: nat)
    requires a < Two(bits)
    ensures XorBits(XorBits(a, b, bits), b, bits) == a
  {
    if bits > 0 {
      var q, r := XorBits(a / 2, b / 2, bits - 1), XorBits(a, b, bits);
      LastBit(a, b, q, r);
      XorBitsTwice(a / 2, b / 2, bits - 1);
      assert XorBits(r, b, bits) == 2 * XorBits(q, b / 2, bits - 1) + (r + b) % 2;
    }
  }

  function Xor(a: byte, b: byte): byte {
    assert Two(8) == 256 by { assert Two(4) == 16; }
    XorBits(a as nat, b as nat, 8) as byte
  }

  lemma XorTwice(a: byte, b: byte)
    ensures Xor(Xor(a, b), b) == a
  {
    assert Two(8) == 256 by { assert Two(4) == 16; }
    XorBitsTwice(a as nat, b as nat, 8);
  }

  /** Exclusive or with the mask, repeated. */
  function Masked(payload: seq<byte>, mask: seq<byte>): (r: seq<byte>)
    requires |mask| == 4
    ensures |r| == |payload| && forall i | 0 <= i < |r| :: r[i] == Xor(payload[i], mask[i % 4])
  {
    seq(|payload|, i requires 0 <= i < |payload| => Xor(payload[i], mask[i % 4]))
  }

  lemma MaskingTwice(payload: seq<byte>, mask: seq<byte>)
    requires |mask| == 4
    ensures Masked(Masked(payload, mask), mask) == payload
  {
    hide Xor;
    forall i | 0 <= i < |payload| ensures Masked(Masked(payload, mask), mask)[i] == payload[i] {
      XorTwice(payload[i], mask[i % 4]);
    }
  }

  /** A frame with its final bit set and no reserved bit, as it goes over the wire. */
  datatype Frame = Frame(opcode: byte, form: Form, mask: Option<seq<byte>>, payload: seq<byte>)

  predicate WellFormed(frame: Frame) {
    && frame.opcode < 16
    && Fits(frame.form, |frame.payload|)
    && (frame.mask.Some? ==> |frame.mask.value| == 4)
  }

  function FirstByte(frame: Frame): byte
    requires frame.opcode < 16
  {
    0x80 + frame.opcode
  }

  function SecondByte(frame: Frame): byte
    requires WellFormed(frame)
  {
    var code := LengthCode(frame.form, |frame.payload|);
    if frame.mask.Some? then 0x80 + code else code
  }

  function Head(frame: Frame): seq<byte>
    requires WellFormed(frame)
  {
    [FirstByte(frame), SecondByte(frame)] + BigEndian(|frame.payload|, Extra(frame.form))
  }

  function Body(frame: Frame): seq<byte>
    requires WellFormed(frame)
  {
    if frame.mask.Some? then frame.mask.value + Masked(frame.payload, frame.mask.value) else frame.payload
  }

  function Encode(frame: Frame): seq<byte>
    requires WellFormed(frame)
  {
    Head(frame) + Body(frame)
  }

  datatype HeadInfo = HeadInfo(opcode: byte, form: Form, masked: bool, length: nat)

  /** Reading a frame back, as section 5.2 lays it out: first what comes before mask and payload. */
  function DecodeHead(input: seq<byte>): Option<HeadInfo> {
    if |input| < 2 || !Final(input[0]) || Reserved(input[0]) then None
    else
      var form := FormOf(input[1]);
      var size := 2 + Extra(form);
      if |input| < size then None
      else Some(HeadInfo(Opcode(input[0]), form, MaskBit(input[1]), LengthOf(input[1], input[2..size])))
  }

  function DecodeBody(head: HeadInfo, body: seq<byte>): Option<(Frame, seq<byte>)> {
    var start := if head.masked then 4 else 0;
    if |body| < start + head.length then None
    else
      var raw := body[start..start + head.length];
      var payload := if head.masked then Masked(raw, body[..4]) else raw;
      Some((Frame(head.opcode, head.form, if head.masked then Some(body[..4]) else None, payload),
            body[start + head.length..]))
  }

  function Decode(input: seq<byte>): Option<(Frame, seq<byte>)> {
    var head := DecodeHead(input);
    if head.None? || |input| < 2 + Extra(head.value.form) then None
    else DecodeBody(head.value, input[2 + Extra(head.value.form)..])
  }

  lemma FirstByteReads(frame: Frame)
    requires WellFormed(frame)
    ensures Final(FirstByte(frame)) && !Reserved(FirstByte(frame)) && Opcode(FirstByte(frame)) == frame.opcode
  {
  }

  lemma SecondByteReads(frame: Frame)
    requires WellFormed(frame)
    ensures MaskBit(SecondByte(frame)) == frame.mask.Some? && FormOf(SecondByte(frame)) == frame.form
    ensures LengthOf(SecondByte(frame), BigEndian(|frame.payload|, Extra(frame.form))) == |frame.payload|
  {
    if frame.form != Short {
      Powers();
      NumberOfBigEndian(|frame.payload|, Extra(frame.form));
    }
  }

  lemma BodyReads(frame: Frame, rest: seq<byte>)
    requires WellFormed(frame)
    ensures var body, length := Body(frame) + rest, |frame.payload|;
      if frame.mask.Some?
      then body[..4] == frame.mask.value && Masked(body[4..4 + length], frame.mask.value) == frame.payload
           && body[4 + length..] == rest
      else body[..length] == frame.payload && body[length..] == rest
  {
    if frame.mask.Some? {
      MaskingTwice(frame.payload, frame.mask.value);
      assert (Body(frame) + rest)[4..4 + |frame.payload|] == Masked(frame.payload, frame.mask.value);
    }
  }

  lemma HeadDecodes(frame: Frame, body: seq<byte>)
    requires WellFormed(frame)
    ensures DecodeHead(Head(frame) + body)
      == Some(HeadInfo(frame.opcode, frame.form, frame.mask.Some?, |frame.payload|))
    ensures |Head(frame)| == 2 + Extra(frame.form) && (Head(frame) + body)[2 + Extra(frame.form)..] == body
  {
    FirstByteReads(frame);
    SecondByteReads(frame);
    var input, extra := Head(frame) + body, BigEndian(|frame.payload|, Extra(frame.form));
    hide FirstByte, SecondByte, Final, Reserved, Opcode, MaskBit, FormOf, LengthOf, BigEndian;
    assert input[2..2 + Extra(frame.form)] == extra;
  }

  /** Every well-formed frame comes back from its bytes, whatever follows them. */
  lemma EncodeDecodes(frame: Frame, rest: seq<byte>)
    requires WellFormed(frame)
    ensures Decode(Encode(frame) + rest) == Some((frame, rest))
  {
    hide Encode, Head, Body, DecodeHead, DecodeBody;
    EncodeParts(frame, rest);
    HeadDecodes(frame, Body(frame) + rest);
    BodyDecodes(frame, rest);
  }

  lemma BodyDecodes(frame: Frame, rest: seq<byte>)
    requires WellFormed(frame)
    ensures DecodeBody(HeadInfo(frame.opcode, frame.form, frame.mask.Some?, |frame.payload|), Body(frame) + rest)
      == Some((frame, rest))
  {
    BodyReads(frame, rest);
    hide Masked;
  }

  lemma EncodeParts(frame: Frame, rest: seq<byte>)
    requires WellFormed(frame)
    ensures Encode(frame) + rest == Head(frame) + (Body(frame) + rest)
  {
    hide Head, Body;
  }

  // ---------------------------------------------------------------- the layout is a bijection

  lemma FirstByteOf(first: byte)
    requires Final(first) && !Reserved(first)
    ensures first == 0x80 + Opcode(first) && Opcode(first) < 16
  {
  }

  lemma SecondByteOf(second: byte)
    ensures second == if MaskBit(second) then 0x80 + second % 0x80 else second % 0x80
    ensures FormOf(second) == Short ==> second % 0x80 <= 125
  {
  }

  lemma LengthEncodes(second: byte, extra: seq<byte>)
    requires |extra| == Extra(FormOf(second))
    ensures var form, length := FormOf(second), LengthOf(second, extra);
      Fits(form, length) && LengthCode(form, length) == second % 0x80 && BigEndian(length, Extra(form)) == extra
  {
    SecondByteOf(second);
    if FormOf(second) != Short {
      Powers();
      BigEndianOfNumber(extra);
    }
  }

  /** A head that decodes is the head of the frame it decodes to. */
  lemma HeadEncodes(input: seq<byte>, frame: Frame)
    requires DecodeHead(input) == Some(HeadInfo(frame.opcode, frame.form, frame.mask.Some?, |frame.payload|))
    requires frame.mask.Some? ==> |frame.mask.value| == 4
    ensures WellFormed(frame) && input[..2 + Extra(frame.form)] == Head(frame)
  {
    var size := 2 + Extra(frame.form);
    var extra := input[2..size];
    FirstByteOf(input[0]);
    SecondByteOf(input[1]);
    LengthEncodes(input[1], extra);
    hide FormOf, LengthOf, BigEndian, Opcode, Final, Reserved, MaskBit, Fits, LengthCode;
    assert WellFormed(frame);
    assert input[0] == FirstByte(frame) && input[1] == SecondByte(frame);
    assert input[..size] == [input[0], input[1]] + extra;
  }

  lemma BodyEncodes(head: HeadInfo, body: seq<byte>, frame: Frame, rest: seq<byte>)
    requires DecodeBody(head, body) == Some((frame, rest)) && WellFormed(frame)
    ensures body == Body(frame) + rest
  {
    hide Masked;
    if head.masked {
      MaskingTwice(body[4..4 + head.length], body[..4]);
      ThreeParts(body, 4, 4 + head.length);
    } else {
      ThreeParts(body, 0, head.length);
      assert body[..0] + body[0..head.length] == body[..head.length];
    }
  }

  lemma ThreeParts(s: seq<byte>, i: nat, j: nat)
    requires i <= j <= |s|
    ensures s == s[..i] + s[i..j] + s[j..]
  {
  }

  lemma BodyFits(head: HeadInfo, body: seq<byte>, frame: Frame, rest: seq<byte>)
    requires DecodeBody(head, body) == Some((frame, rest))
    ensures frame.opcode == head.opcode && frame.form == head.form
    ensures frame.mask.Some? == head.masked && |frame.payload| == head.length
  {
  }

  /** Bytes that decode are the bytes of the frame they decode to. */
  lemma DecodeEncodes(input: seq<byte>, frame: Frame, rest: seq<byte>)
    requires Decode(input) == Some((frame, rest))
    ensures WellFormed(frame) && input == Encode(frame) + rest
  {
    var head := DecodeHead(input).value;
    var size := 2 + Extra(head.form);
    var body := input[size..];
    assert DecodeBody(head, body) == Some((frame, rest));
    BodyFits(head, body, frame, rest);
    hide DecodeBody;
    HeadEncodes(input, frame);
    BodyEncodes(head, body, frame, rest);
    hide *;
    assert input == input[..size] + body;
    EncodeParts(frame, rest);
  }

  // ---------------------------------------------------------------- the frames the server writes

  function ServerFrame(opcode: byte, payload: seq<byte>): Frame {
    Frame(opcode, ShortestForm(|payload|), None, payload)
  }

  function Written(opcode: byte, payload: seq<byte>): seq<byte>
    requires opcode < 16 && |payload| < 0x8000_0000_0000_0000
  {
    Encode(ServerFrame(opcode, payload))
  }

  /** A written frame is read back as its opcode and payload. */
  lemma WrittenDecodes(opcode: byte, payload: seq<byte>, rest: seq<byte>)
    requires opcode < 16 && |payload| < 0x8000_0000_0000_0000
    ensures Decode(Written(opcode, payload) + rest) == Some((ServerFrame(opcode, payload), rest))
  {
    EncodeDecodes(ServerFrame(opcode, payload), rest);
  }

  /** No shorter bytes are read as the same opcode and payload. */
  lemma WrittenIsShortest(opcode: byte, payload: seq<byte>, other: seq<byte>)
    requires opcode < 16 && |payload| < 0x8000_0000_0000_0000
    requires Decode(other).Some? && Decode(other).value.0.opcode == opcode && Decode(other).value.0.payload == payload
    ensures |Written(opcode, payload)| <= |other|
  {
    var (frame, rest) := Decode(other).value;
    DecodeEncodes(other, frame, rest);
  }

  // ---------------------------------------------------------------- the bytes themselves

  lemma TwoBytes(n: nat)
    requires n < 0x1_0000
    ensures var bytes := BigEndian(n, 2); n == bytes[0] as nat * 256 + bytes[1] as nat
  {
    Powers();
    NumberOfBigEndian(n, 2);
    var bytes := BigEndian(n, 2);
    hide BigEndian;
    LastOf(bytes, 1);
    LastOf(bytes, 0);
    assert bytes[..2] == bytes && bytes[..0] == [];
  }

  lemma LastOf(bytes: seq<byte>, i: nat)
    requires i < |bytes|
    ensures Number(bytes[..i + 1]) == 256 * Number(bytes[..i]) + bytes[i] as nat
  {
    assert bytes[..i + 1][..i] == bytes[..i];
  }

  function Weighed(bytes: seq<byte>): nat
    requires |bytes| == 8
  {
    bytes[0] as nat * 0x100_0000_0000_0000 + bytes[1] as nat * 0x1_0000_0000_0000 + bytes[2] as nat * 0x100_0000_0000
    + bytes[3] as nat * 0x1_0000_0000 + bytes[4] as nat * 0x100_0000 + bytes[5] as nat * 0x1_0000
    + bytes[6] as nat * 0x100 + bytes[7] as nat
  }

  lemma EightBytes(n: nat)
    requires n < 0x1_0000_0000_0000_0000
    ensures n == Weighed(BigEndian(n, 8))
  {
    Powers();
    NumberOfBigEndian(n, 8);
    var bytes := BigEndian(n, 8);
    hide BigEndian, Number;
    assert Number(bytes[..0]) == 0 by { NumberOfNothing(); assert bytes[..0] == []; }
    LastOf(bytes, 0);
    LastOf(bytes, 1);
    LastOf(bytes, 2);
    LastOf(bytes, 3);
    LastOf(bytes, 4);
    LastOf(bytes, 5);
    LastOf(bytes, 6);
    LastOf(bytes, 7);
    assert bytes[..8] == bytes;
  }

  lemma NumberOfNothing()
    ensures Number([]) == 0
  {
  }

  lemma WrittenParts(opcode: byte, payload: seq<byte>)
    requires opcode < 16 && |payload| < 0x8000_0000_0000_0000
    ensures var frame := ServerFrame(opcode, payload);
      var extra := BigEndian(|payload|, Extra(frame.form));
      WellFormed(frame) && Written(opcode, payload) == [FirstByte(frame), SecondByte(frame)] + extra + payload
  {
    hide BigEndian;
  }

  lemma FirstTwo(opcode: byte, payload: seq<byte>)
    requires opcode < 16 && |payload| < 0x8000_0000_0000_0000
    ensures var frame := ServerFrame(opcode, payload);
      && WellFormed(frame) && FirstByte(frame) as nat == 128 + opcode as nat
      && SecondByte(frame) as nat
         == (if |payload| <= 125 then |payload| else if |payload| < 65536 then 126 else 127)
  {
  }

  /** A written frame, byte for byte: final bit and opcode, then the length without a mask bit, in one byte, or in two
      after 126, or in eight after 127, high bytes first, then the payload. */
  lemma WrittenBytes(opcode: byte, payload: seq<byte>)
    requires opcode < 16 && |payload| < 0x8000_0000_0000_0000
    ensures var bytes, length := Written(opcode, payload), |payload|;
      && |bytes| >= 2 && bytes[0] as nat == 128 + opcode as nat
      && (length <= 125 ==> bytes[1] as nat == length && bytes[2..] == payload)
      && (125 < length < 65536 ==>
            |bytes| >= 4 && bytes[1] == 126 && length == bytes[2] as nat * 256 + bytes[3] as nat
            && bytes[4..] == payload)
      && (length >= 65536 ==>
            |bytes| >= 10 && bytes[1] == 127 && length == Weighed(bytes[2..10]) && bytes[10..] == payload)
  {
    var frame := ServerFrame(opcode, payload);
    var extra := BigEndian(|payload|, Extra(frame.form));
    WrittenParts(opcode, payload);
    FirstTwo(opcode, payload);
    var bytes, size := Written(opcode, payload), 2 + |extra|;
    hide BigEndian, Written, FirstByte, SecondByte, Weighed;
    assert bytes[2..size] == extra && bytes[size..] == payload;
    if |payload| >= 65536 {
      EightBytes(|payload|);
    } else if |payload| > 125 {
      TwoBytes(|payload|);
      assert bytes[2] == extra[0] && bytes[3] == extra[1];
    }
  }
}
