/** The push socket's frame writer and its reader, which answers control frames until a text arrives. */
module PushSocket {
  import opened Wrappers
  import opened Frames

  datatype ReadError =
    | EndOfInput | ReservedBits | NotMasked | FragmentedControl | LongControl | Fragmented | TooLong
    | UnsupportedOpcode | WriteFailed | CloseReceived

  // ---------------------------------------------------------------- one frame

  /** Reading one frame: what it was, or why it is refused, and how many bytes that took. */
  datatype Step = Failed(error: ReadError, used: nat) | Got(opcode: byte, payload: seq<byte>, used: nat)

  /** The checks made once the length is known. */
  function Refusal(final: bool, opcode: byte, length: nat): Option<ReadError> {
    if opcode >= 8 && !final then Some(FragmentedControl)
    else if opcode >= 8 && length > 125 then Some(LongControl)
    else if !final then Some(Fragmented)
    else if length > MAX_MESSAGE_BYTES then Some(TooLong)
    else None
  }

  function ReadBody(opcode: byte, length: nat, size: nat, input: seq<byte>): Step
    requires size <= |input|
  {
    if |input| < size + 4 + length then Failed(EndOfInput, |input|)
    else Got(opcode, Masked(input[size + 4..size + 4 + length], input[size..size + 4]), size + 4 + length)
  }

  function ReadOne(input: seq<byte>): (step: Step)
    ensures step.used <= |input| && (step.Got? ==> step.used > 0 && |step.payload| <= MAX_MESSAGE_BYTES)
  {
    if |input| < 2 then Failed(EndOfInput, |input|)
    else if Reserved(input[0]) then Failed(ReservedBits, 2)
    else if !MaskBit(input[1]) then Failed(NotMasked, 2)
    else
      var size := 2 + Extra(FormOf(input[1]));
      if |input| < size then Failed(EndOfInput, |input|)
      else
        var opcode, length := Opcode(input[0]), LengthOf(input[1], input[2..size]);
        var refusal := Refusal(Final(input[0]), opcode, length);
        if refusal.Some? then Failed(refusal.value, size) else ReadBody(opcode, length, size, input)
  }

  /** The frames the reader takes: masked, within the limits. */
  predicate Acceptable(frame: Frame) {
    frame.mask.Some? && |frame.payload| <= (if frame.opcode >= 8 then 125 else MAX_MESSAGE_BYTES)
  }

  /** The reader gets a frame exactly when the bytes begin with an acceptable one. */
  lemma ReadOneIffFrame(input: seq<byte>)
    ensures var decoded := Decode(input);
      if decoded.Some? && Acceptable(decoded.value.0)
      then ReadOne(input) == Got(decoded.value.0.opcode, decoded.value.0.payload, |input| - |decoded.value.1|)
      else ReadOne(input).Failed?
  {
    hide Masked, Final, Reserved, Opcode, MaskBit, FormOf, LengthOf;
    var head := DecodeHead(input);
    if head.Some? && |input| >= 2 + Extra(head.value.form) && head.value.masked {
      var size, length := 2 + Extra(head.value.form), head.value.length;
      var body := input[size..];
      if |body| >= 4 + length {
        assert body[..4] == input[size..size + 4];
        assert body[4..4 + length] == input[size + 4..size + 4 + length];
        assert body[4 + length..] == input[size + 4 + length..];
      }
    }
  }

  // ---------------------------------------------------------------- until a text arrives

  datatype Reading = Reading(result: Result<seq<byte>, ReadError>, used: nat, sent: seq<byte>)

  /** What a frame ends the reading with, if it does. */
  function Answer(step: Step, open: bool): Option<Result<seq<byte>, ReadError>> {
    if step.Failed? then Some(Err(step.error))
    else if step.opcode == TEXT then Some(Ok(step.payload))
    else if step.opcode == CLOSE then Some(Err(CloseReceived))
    else if step.opcode == PING then (if open then None else Some(Err(WriteFailed)))
    else if step.opcode == PONG then None
    else Some(Err(UnsupportedOpcode))
  }

  /** What is written on account of a frame. */
  function ReplyTo(step: Step, open: bool): seq<byte>
    requires step.Got? ==> |step.payload| <= MAX_MESSAGE_BYTES
  {
    if step.Failed? || !open then []
    else if step.opcode == CLOSE then Written(CLOSE, step.payload)
    else if step.opcode == PING then Written(PONG, step.payload)
    else []
  }

  /** Reading on a connection that can still be written to, or not. */
  function ReadText(input: seq<byte>, open: bool): (reading: Reading)
    ensures reading.used <= |input|
    decreases |input|
  {
    var step := ReadOne(input);
    var answer, reply := Answer(step, open), ReplyTo(step, open);
    if answer.Some? then Reading(answer.value, step.used, reply)
    else
      var more := ReadText(input[step.used..], open);
      Reading(more.result, step.used + more.used, reply + more.sent)
  }

  function Bytes(frames: seq<Frame>): seq<byte>
    requires forall i | 0 <= i < |frames| :: WellFormed(frames[i])
  {
    if frames == [] then [] else Encode(frames[0]) + Bytes(frames[1..])
  }

  function PongFor(frame: Frame): seq<byte>
    requires |frame.payload| <= 125
  {
    if frame.opcode == PING then Written(PONG, frame.payload) else []
  }

  /** One pong for each ping, in order, with its payload. */
  function Pongs(frames: seq<Frame>): seq<byte>
    requires forall i | 0 <= i < |frames| :: |frames[i].payload| <= 125
  {
    if frames == [] then [] else PongFor(frames[0]) + Pongs(frames[1..])
  }

  /** A ping or pong the reader answers or skips. */
  predicate Heartbeat(frame: Frame, open: bool) {
    && WellFormed(frame) && Acceptable(frame) && |frame.payload| <= 125
    && (frame.opcode == PONG || (frame.opcode == PING && open))
  }

  predicate Heartbeats(frames: seq<Frame>, open: bool) {
    forall i | 0 <= i < |frames| :: Heartbeat(frames[i], open)
  }

  predicate TextFrame(frame: Frame) {
    WellFormed(frame) && Acceptable(frame) && frame.opcode == TEXT
  }

  lemma ReadOneOfEncoded(frame: Frame, rest: seq<byte>)
    requires WellFormed(frame) && Acceptable(frame)
    ensures ReadOne(Encode(frame) + rest) == Got(frame.opcode, frame.payload, |Encode(frame)|)
    ensures (Encode(frame) + rest)[|Encode(frame)|..] == rest
  {
    EncodeDecodes(frame, rest);
    ReadOneIffFrame(Encode(frame) + rest);
  }

  lemma ReadsOneMore(input: seq<byte>, open: bool)
    requires Answer(ReadOne(input), open).None?
    ensures var step := ReadOne(input);
      var more := ReadText(input[step.used..], open);
      ReadText(input, open) == Reading(more.result, step.used + more.used, ReplyTo(step, open) + more.sent)
  {
    hide Answer, ReplyTo, ReadOne;
  }

  lemma BeatPasses(first: Frame, more: seq<byte>, open: bool)
    requires Heartbeat(first, open)
    ensures var on := ReadText(more, open);
      ReadText(Encode(first) + more, open)
      == Reading(on.result, |Encode(first)| + on.used, PongFor(first) + on.sent)
  {
    hide Encode, ReadOne, Written, ReadText;
    ReadOneOfEncoded(first, more);
    ReadsOneMore(Encode(first) + more, open);
    assert (Encode(first) + more)[|Encode(first)|..] == more;
  }

  lemma BytesSplit(controls: seq<Frame>, rest: seq<byte>)
    requires controls != [] && forall i | 0 <= i < |controls| :: WellFormed(controls[i])
    ensures Bytes(controls) + rest == Encode(controls[0]) + (Bytes(controls[1..]) + rest)
    ensures |Bytes(controls)| == |Encode(controls[0])| + |Bytes(controls[1..])|
  {
    hide Encode, WellFormed;
    Regroup(Encode(controls[0]), Bytes(controls[1..]), rest);
  }

  lemma Regroup(a: seq<byte>, b: seq<byte>, c: seq<byte>)
    ensures (a + b) + c == a + (b + c)
  {
  }

  /** Pings and pongs are read over: the pings are answered, and reading goes on behind them. */
  lemma {:induction false} HeartbeatsPass(controls: seq<Frame>, rest: seq<byte>, open: bool)
    requires Heartbeats(controls, open)
    ensures var on := ReadText(rest, open);
      ReadText(Bytes(controls) + rest, open)
      == Reading(on.result, |Bytes(controls)| + on.used, Pongs(controls) + on.sent)
  {
    var sent := ReadText(rest, open).sent;
    if controls == [] {
      hide ReadText;
      assert Bytes(controls) + rest == rest && Pongs(controls) + sent == sent;
    } else {
      BytesSplit(controls, rest);
      assert Pongs(controls) + sent == PongFor(controls[0]) + (Pongs(controls[1..]) + sent) by {
        hide PongFor;
        Regroup(PongFor(controls[0]), Pongs(controls[1..]), sent);
      }
      hide Encode, ReadText, Bytes, Pongs, PongFor, WellFormed, Acceptable;
      BeatPasses(controls[0], Bytes(controls[1..]) + rest, open);
      HeartbeatsPass(controls[1..], rest, open);
    }
  }


  /** Any run of pings and pongs and then a text: the text is returned, and each ping was answered. */
  lemma ReaderReturnsText(controls: seq<Frame>, text: Frame, rest: seq<byte>, open: bool)
    requires Heartbeats(controls, open) && TextFrame(text)
    ensures ReadText(Bytes(controls) + Encode(text) + rest, open)
      == Reading(Ok(text.payload), |Bytes(controls) + Encode(text)|, Pongs(controls))
  {
    hide Encode, ReadOne, Written;
    assert Bytes(controls) + Encode(text) + rest == Bytes(controls) + (Encode(text) + rest);
    HeartbeatsPass(controls, Encode(text) + rest, open);
    ReadOneOfEncoded(text, rest);
  }

  /** Pings, pongs and then a close or a frame of an unknown kind: reading ends with an error. The pings were answered,
      and a close is answered with a close of the same payload. */
  lemma ReaderEnds(controls: seq<Frame>, last: Frame, rest: seq<byte>, open: bool)
    requires Heartbeats(controls, open) && WellFormed(last) && Acceptable(last) && last.opcode !in {1, 9, 10}
    ensures ReadText(Bytes(controls) + Encode(last) + rest, open)
      == Reading(Err(if last.opcode == 8 then CloseReceived else UnsupportedOpcode), |Bytes(controls) + Encode(last)|,
                 Pongs(controls) + if last.opcode == 8 && open then Written(8, last.payload) else [])
  {
    hide Encode, ReadOne, Written;
    assert Bytes(controls) + Encode(last) + rest == Bytes(controls) + (Encode(last) + rest);
    HeartbeatsPass(controls, Encode(last) + rest, open);
    ReadOneOfEncoded(last, rest);
  }

  /** What was read: a run of pings and pongs and then a text, with an answer to every ping. */
  predicate ReadAs(input: seq<byte>, open: bool, controls: seq<Frame>, text: Frame) {
    var reading := ReadText(input, open);
    && Heartbeats(controls, open) && TextFrame(text)
    && reading.used <= |input| && input[..reading.used] == Bytes(controls) + Encode(text)
    && reading.result == Ok(text.payload) && reading.sent == Pongs(controls)
  }

  lemma OneFrameMore(frame: Frame, controls: seq<Frame>, open: bool)
    requires Heartbeat(frame, open) && Heartbeats(controls, open)
    ensures Heartbeats([frame] + controls, open)
    ensures Bytes([frame] + controls) == Encode(frame) + Bytes(controls)
    ensures Pongs([frame] + controls) == PongFor(frame) + Pongs(controls)
  {
    hide Encode, PongFor, WellFormed, Acceptable;
    assert ([frame] + controls)[1..] == controls;
  }

  lemma Prefixed(input: seq<byte>, start: seq<byte>, n: nat)
    requires |start| <= |input| && input[..|start|] == start && n <= |input[|start|..]|
    ensures input == start + input[|start|..] && input[..|start| + n] == start + input[|start|..][..n]
  {
  }

  lemma ReadOneMore(input: seq<byte>, open: bool, frame: Frame, controls: seq<Frame>, text: Frame)
    requires Heartbeat(frame, open) && |Encode(frame)| <= |input| && input[..|Encode(frame)|] == Encode(frame)
    requires ReadAs(input[|Encode(frame)|..], open, controls, text)
    ensures ReadAs(input, open, [frame] + controls, text)
  {
    hide Encode, ReadText, Bytes, Pongs, PongFor, WellFormed, Acceptable;
    var rest := input[|Encode(frame)|..];
    Prefixed(input, Encode(frame), ReadText(rest, open).used);
    BeatPasses(frame, rest, open);
    OneFrameMore(frame, controls, open);
    Regroup(Encode(frame), Bytes(controls), Encode(text));
  }

  /** And only then: a returned text is the payload of a text frame that follows such a run. */
  lemma {:induction false} ReaderTextMeans(input: seq<byte>, open: bool) returns (controls: seq<Frame>, text: Frame)
    requires ReadText(input, open).result.Ok?
    ensures ReadAs(input, open, controls, text)
    decreases |input|
  {
    hide Encode, ReadOne, Written, Masked;
    var step := ReadOne(input);
    var frame := FirstFrame(input);
    if step.opcode == TEXT {
      controls, text := [], frame;
    } else {
      controls, text := ReaderTextMeans(input[step.used..], open);
      ReadOneMore(input, open, frame, controls, text);
      controls := [frame] + controls;
    }
  }

  /** The frame a successful read has read. */
  lemma FirstFrame(input: seq<byte>) returns (frame: Frame)
    requires ReadOne(input).Got?
    ensures var step := ReadOne(input);
      && WellFormed(frame) && Acceptable(frame) && frame.opcode == step.opcode && frame.payload == step.payload
      && input[..step.used] == Encode(frame)
  {
    ReadOneIffFrame(input);
    hide ReadOne, Decode, Encode;
    var (decoded, rest) := Decode(input).value;
    DecodeEncodes(input, decoded, rest);
    frame := decoded;
  }

  // ---------------------------------------------------------------- the connection

  class PushSocketConnection {
    /** Bytes that have arrived and were not read yet, and bytes written so far. */
    var unread: seq<byte>
    var sent: seq<byte>
    var closed: bool

    constructor (unread: seq<byte>)
      ensures this.unread == unread && sent == [] && !closed
    {
      this.unread, sent, closed := unread, [], false;
    }

    method WriteFrame(opcode: byte, payload: seq<byte>) returns (ok: bool)
      requires opcode < 16 && |payload| < 0x8000_0000_0000_0000
      modifies this`sent
      ensures ok == !closed
      ensures sent == old(sent) + if ok then Written(opcode, payload) else []
    {
      if closed {
        return false;
      }
      ghost var frame := ServerFrame(opcode, payload);
      sent := sent + [0x80 + opcode];
      var length := |payload|;
      if length <= 125 {
        sent := sent + [length as byte];
      } else if length <= 65535 {
        sent := sent + [126];
        sent := sent + BigEndian(length, 2);
      } else {
        sent := sent + [127];
        sent := sent + BigEndian(length, 8);
      }
      hide BigEndian;
      assert sent == old(sent) + Head(frame);
      sent := sent + payload;
      return true;
    }

    method Take(count: nat) returns (bytes: seq<byte>)
      requires count <= |unread|
      modifies this`unread
      ensures bytes == old(unread)[..count] && unread == old(unread)[count..]
    {
      bytes := unread[..count];
      unread := unread[count..];
    }

    /** One pass of the loop up to the unmasked payload. */
    method ReadFrame() returns (step: Step)
      modifies this`unread
      ensures step == ReadOne(old(unread)) && unread == old(unread)[step.used..]
    {
      ghost var input := unread;
      hide Masked, Final, Reserved, Opcode, MaskBit, FormOf, LengthOf;
      if |unread| < 2 {
        step := Failed(EndOfInput, |unread|);
        unread := [];
        return;
      }
      var head := Take(2);
      var first, second := head[0], head[1];
      if Reserved(first) {
        return Failed(ReservedBits, 2);
      }
      if !MaskBit(second) {
        return Failed(NotMasked, 2);
      }
      var extra := Extra(FormOf(second));
      if |unread| < extra {
        step := Failed(EndOfInput, 2 + |unread|);
        unread := [];
        return;
      }
      var lengthBytes := Take(extra);
      assert lengthBytes == input[2..2 + extra] && unread == input[2 + extra..];
      var length := LengthOf(second, lengthBytes);
      var refusal := Refusal(Final(first), Opcode(first), length);
      if refusal.Some? {
        return Failed(refusal.value, 2 + extra);
      }
      step := ReadPayload(Opcode(first), length, 2 + extra, input);
    }

    method ReadPayload(opcode: byte, length: nat, size: nat, ghost input: seq<byte>) returns (step: Step)
      requires size <= |input| && unread == input[size..]
      modifies this`unread
      ensures step == ReadBody(opcode, length, size, input) && step.used <= |input| && unread == input[step.used..]
    {
      if |unread| < 4 + length {
        step := Failed(EndOfInput, size + |unread|);
        unread := [];
        return;
      }
      var mask := Take(4);
      var raw := Take(length);
      assert mask == input[size..size + 4] && raw == input[size + 4..size + 4 + length];
      var payload := new byte[length](i requires 0 <= i < length => raw[i]);
      assert payload[..] == raw;
      Unmask(payload, mask);
      step := Got(opcode, payload[..], size + 4 + length);
    }

    /** One whole pass of the loop. */
    method HandleFrame() returns (answer: Option<Result<seq<byte>, ReadError>>, ghost step: Step)
      modifies this`unread, this`sent
      ensures step == ReadOne(old(unread)) && unread == old(unread)[step.used..]
      ensures answer == Answer(step, !closed) && sent == old(sent) + ReplyTo(step, !closed)
    {
      hide ReadOne, Written;
      var frame := ReadFrame();
      step := frame;
      if frame.Failed? {
        return Some(Err(frame.error)), frame;
      }
      match frame.opcode {
        case 0x1 =>
          answer := Some(Ok(frame.payload));
        case 0x8 =>
          var _ := WriteFrame(CLOSE, frame.payload);
          answer := Some(Err(CloseReceived));
        case 0x9 =>
          var ok := WriteFrame(PONG, frame.payload);
          answer := if ok then None else Some(Err(WriteFailed));
        case 0xA =>
          answer := None;
        case _ =>
          answer := Some(Err(UnsupportedOpcode));
      }
    }

    method ReadTextFrame() returns (result: Result<seq<byte>, ReadError>)
      modifies this`unread, this`sent
      ensures var reading := ReadText(old(unread), !closed);
        result == reading.result && sent == old(sent) + reading.sent && unread == old(unread)[reading.used..]
    {
      hide ReadOne, Written, Answer, ReplyTo, ReadText, Continues;
      ghost var input := unread;
      ghost var used, answers := 0, [];
      StartsAt(input, !closed);
      while true
        invariant 0 <= used <= |input| && unread == input[used..] && sent == old(sent) + answers
        invariant Continues(input, used, answers, !closed)
        decreases |unread|
      {
        var answer, step := HandleFrame();
        if answer.Some? {
          StopsAt(input, used, answers, step, !closed);
          return answer.value;
        }
        ContinuesPastAnswer(step, !closed);
        ReadsOn(input, used, answers, step, !closed);
        used, answers := used + step.used, answers + ReplyTo(step, !closed);
      }
    }
  }

  /** Reading on from `used`, after the answers given so far, is reading the whole input. */
  predicate Continues(input: seq<byte>, used: nat, answers: seq<byte>, open: bool)
    requires used <= |input|
  {
    var rest := ReadText(input[used..], open);
    ReadText(input, open) == Reading(rest.result, used + rest.used, answers + rest.sent)
  }

  lemma StartsAt(input: seq<byte>, open: bool)
    ensures input[0..] == input && Continues(input, 0, [], open)
  {
    hide ReadText;
    assert input[0..] == input;
  }

  lemma StopsAt(input: seq<byte>, used: nat, answers: seq<byte>, step: Step, open: bool)
    requires used <= |input| && Continues(input, used, answers, open)
    requires step == ReadOne(input[used..]) && Answer(step, open).Some?
    ensures ReadText(input, open) == Reading(Answer(step, open).value, used + step.used, answers + ReplyTo(step, open))
    ensures input[used..][step.used..] == input[used + step.used..]
  {
    hide Answer, ReplyTo;
  }

  lemma ReadsOn(input: seq<byte>, used: nat, answers: seq<byte>, step: Step, open: bool)
    requires used <= |input| && Continues(input, used, answers, open)
    requires step == ReadOne(input[used..]) && Answer(step, open).None?
    ensures used + step.used <= |input| && input[used..][step.used..] == input[used + step.used..]
    ensures Continues(input, used + step.used, answers + ReplyTo(step, open), open)
  {
    hide Answer, ReplyTo, ReadOne, ReadText;
    ReadsOneMore(input[used..], open);
    assert input[used..][step.used..] == input[used + step.used..];
    var more := ReadText(input[used + step.used..], open);
    assert answers + (ReplyTo(step, open) + more.sent) == answers + ReplyTo(step, open) + more.sent;
  }

  lemma ContinuesPastAnswer(step: Step, open: bool)
    requires Answer(step, open).None?
    ensures step.Got?
  {
  }

  method Unmask(payload: array<byte>, mask: seq<byte>)
    requires |mask| == 4
    modifies payload
    ensures payload[..] == Masked(old(payload[..]), mask)
  {
    hide Xor;
    for index := 0 to payload.Length
      invariant forall i | 0 <= i < index :: payload[i] == Xor(old(payload[i]), mask[i % 4])
      invariant forall i | index <= i < payload.Length :: payload[i] == old(payload[i])
    {
      payload[index] := Xor(payload[index], mask[index % 4]);
    }
  }
}
