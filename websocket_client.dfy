// The WAMP server's per-connection client
// (miniserver_gateway/exchanges/websockets/client.py) as a class whose
// fields the methods update in place, as the source's do. Each method is
// proved to leave the client in the state the matching function of
// WebSocketFrames gives; the properties of those functions are proved there.

module WebSocketClient {
  import opened Common
  import opened WebSocketFrames

  class WampClient {
    // The frame being assembled (`__state`, `__fin`, `__opcode`, `__has_mask`,
    // `__mask_array`, `__length`, `__length_array`, `__index`, `__received_data`).
    var phase: Phase
    var fin: bool
    var opcode: int
    var hasMask: bool
    var mask: seq<Byte>
    var length: nat
    var lengthBytes: seq<Byte>
    var index: nat
    var received: seq<Byte>
    // The fragmented message being collected (`__frag_start`, `__frag_type`, `__frag_buffer`).
    var fragStart: bool
    var fragType: int
    var fragBuffer: seq<Byte>
    /** `__is_closed`: a close frame was sent. */
    var closed: bool
    /** `__send_queue`: every frame queued for sending, with its opcode, in order. */
    var queue: seq<Queued>
    /** The payloads handed to `handle_message`, in order. */
    var messages: seq<seq<Byte>>

    /** The frame fields as a value. */
    function FrameView(): FrameState
      reads this
    {
      FrameState(phase, fin, opcode, hasMask, mask, length, lengthBytes, index, received)
    }

    /** The whole receive state as a value. */
    function View(): ClientView
      reads this
    {
      ClientView(FrameView(), fragStart, fragType, fragBuffer, closed, queue, messages)
    }

    /** A new client waits for the first header byte with nothing queued. */
    constructor()
      ensures View() == InitialView
    {
      phase := HeaderB1;
      fin := false;
      opcode := 0;
      hasMask := false;
      mask := [];
      length := 0;
      lengthBytes := [];
      index := 0;
      received := [];
      fragStart := false;
      fragType := OpBinary;
      fragBuffer := [];
      closed := false;
      queue := [];
      messages := [];
    }

    // -------------------------------------------------------------------------
    // Sending

    /** `__send_message`: frame the data (final, unmasked) and queue it. */
    method SendFrame(op: int, data: seq<Byte>)
      requires 0 <= op < 16 && |data| < Limit64
      modifies this
      ensures View() == QueueFrame(old(View()), op, data)
    {
      var payload: seq<Byte> := [0x80 + op];
      var n := |data|;
      if n <= 125 {
        payload := payload + [n];
      } else if n <= 65535 {
        payload := payload + [126] + BigEndianBytes(n, 2);
      } else {
        payload := payload + [127] + BigEndianBytes(n, 8);
      }
      assert payload == [0x80 + op] + LengthField(n);
      payload := payload + data;
      queue := queue + [Queued(op, payload)];
    }

    /** `send_message`: text goes out as a text frame, bytes as a binary frame. */
    method SendMessage(data: seq<Byte>, text: bool)
      requires |data| < Limit64
      modifies this
      ensures View() == QueueFrame(old(View()), if text then OpText else OpBinary, data)
    {
      var op := OpBinary;
      if text {
        op := OpText;
      }
      SendFrame(op, data);
    }

    /**
     * `send_close`: queue a close frame with the status and reason unless
     * one was sent; the client is closed afterwards whatever happens. A
     * status that does not fit two bytes raises.
     */
    method SendClose(status: int, reason: seq<Byte>) returns (raised: bool)
      modifies this
      ensures Stepped(View(), raised) == QueueClose(old(View()), status, reason)
    {
      raised := false;
      if !closed {
        if 0 <= status < 65536 && 2 + |reason| < Limit64 {
          SendFrame(OpClose, CloseBody(status, reason));
        } else {
          raised := true;
        }
      }
      closed := true;
    }

    // -------------------------------------------------------------------------
    // Handling a complete frame

    /** `handle_message`: hand the payload to the WAMP layer. */
    method HandleMessage(payload: seq<Byte>)
      modifies this
      ensures View() == Deliver(old(View()), payload)
    {
      messages := messages + [payload];
    }

    /** `__handle_packet`: act on the complete frame. */
    method HandlePacket() returns (raised: bool)
      modifies this
      ensures Stepped(View(), raised) == WebSocketFrames.HandlePacket(old(View()))
    {
      var op := opcode;
      if !KnownOpcode(op) {
        return true;
      }
      if (op == OpPong || op == OpPing) && |received| > 125 {
        return true;
      }
      raised := false;
      if op == OpClose {
        var reply := CloseReplyTo(received);
        raised := SendClose(reply.status, reply.reason);
      } else if !fin {
        if op != OpStream {
          if op == OpPing || op == OpPong {
            return true;
          }
          fragType := op;
          fragStart := true;
          fragBuffer := received;
          raised := op == OpText && !Utf8Prefix(received);
        } else if !fragStart {
          return true;
        } else {
          fragBuffer := fragBuffer + received;
          raised := fragType == OpText && !Utf8Prefix(fragBuffer);
        }
      } else if op == OpStream {
        var whole := fragBuffer + received;
        if !fragStart || (fragType == OpText && !ValidUtf8(whole)) {
          return true;
        }
        HandleMessage(whole);
        fragType := OpBinary;
        fragStart := false;
        fragBuffer := [];
      } else if op == OpPing {
        SendFrame(OpPong, received);
      } else if op == OpPong {
      } else if fragStart {
        return true;
      } else {
        HandleMessage(received);
      }
    }

    /** A complete frame: handle it, then wait for the next header with an empty buffer. */
    method CompleteFrame() returns (raised: bool)
      modifies this
      ensures Stepped(View(), raised) == Complete(old(View()))
    {
      raised := HandlePacket();
      phase := HeaderB1;
      received := [];
    }

    // -------------------------------------------------------------------------
    // Parsing, one byte at a time

    /** Once the length is known: read the mask, finish an empty frame, or start the payload. */
    method AfterLength() returns (ready: bool)
      modifies this`phase, this`fin, this`opcode, this`hasMask, this`mask, this`length, this`lengthBytes, this`index, this`received
      ensures var p := WebSocketFrames.AfterLength(old(FrameView()));
              FrameView() == p.f && ready == p.Ready? && !p.Fail?
    {
      ready := false;
      if hasMask {
        mask := [];
        phase := MaskBytes;
      } else if length == 0 {
        ready := true;
      } else {
        received := [];
        phase := Payload;
      }
    }

    /** HEADER_B1. */
    method ReadHeaderB1(b: Byte) returns (raised: bool)
      modifies this`phase, this`fin, this`opcode, this`hasMask, this`mask, this`length, this`lengthBytes, this`index, this`received
      ensures var p := HeaderB1Step(old(FrameView()), b);
              FrameView() == p.f && raised == p.Fail? && !p.Ready?
    {
      fin := b >= 0x80;
      opcode := b % 16;
      phase := HeaderB2;
      index := 0;
      length := 0;
      lengthBytes := [];
      received := [];
      raised := (b / 16) % 8 != 0;
    }

    /** HEADER_B2. */
    method ReadHeaderB2(b: Byte) returns (ready: bool, raised: bool)
      modifies this`phase, this`fin, this`opcode, this`hasMask, this`mask, this`length, this`lengthBytes, this`index, this`received
      ensures var p := HeaderB2Step(old(FrameView()), b);
              FrameView() == p.f && ready == p.Ready? && raised == p.Fail?
    {
      var n := b % 128;
      if opcode == OpPing && n > 125 {
        return false, true;
      }
      hasMask := b >= 0x80;
      ready, raised := false, false;
      if n <= 125 {
        length := n;
        ready := AfterLength();
      } else if n == 126 {
        lengthBytes := [];
        phase := LengthShort;
      } else {
        lengthBytes := [];
        phase := LengthLong;
      }
    }

    /** LENGTH_SHORT (two bytes) and LENGTH_LONG (eight bytes). */
    method ReadLength(b: Byte, size: nat) returns (ready: bool, raised: bool)
      modifies this`phase, this`fin, this`opcode, this`hasMask, this`mask, this`length, this`lengthBytes, this`index, this`received
      ensures var p := LengthStep(old(FrameView()), b, size);
              FrameView() == p.f && ready == p.Ready? && raised == p.Fail?
    {
      lengthBytes := lengthBytes + [b];
      ready, raised := false, false;
      if |lengthBytes| > size {
        raised := true;
      } else if |lengthBytes| == size {
        length := BigEndian(lengthBytes);
        ready := AfterLength();
      }
    }

    /** MASK. */
    method ReadMask(b: Byte) returns (ready: bool, raised: bool)
      modifies this`phase, this`fin, this`opcode, this`hasMask, this`mask, this`length, this`lengthBytes, this`index, this`received
      ensures var p := MaskStep(old(FrameView()), b);
              FrameView() == p.f && ready == p.Ready? && raised == p.Fail?
    {
      mask := mask + [b];
      ready, raised := false, false;
      if |mask| > 4 {
        raised := true;
      } else if |mask| == 4 {
        if length == 0 {
          ready := true;
        } else {
          received := [];
          phase := Payload;
        }
      }
    }

    /** PAYLOAD. */
    method ReadPayload(b: Byte) returns (ready: bool, raised: bool)
      modifies this`phase, this`fin, this`opcode, this`hasMask, this`mask, this`length, this`lengthBytes, this`index, this`received
      ensures var p := PayloadStep(old(FrameView()), b);
              FrameView() == p.f && ready == p.Ready? && raised == p.Fail?
    {
      ready, raised := false, false;
      if hasMask {
        if index % 4 >= |mask| {
          return false, true;
        }
        received := received + [Xor(b, mask[index % 4])];
      } else {
        received := received + [b];
      }
      if |received| >= MaxPayload {
        raised := true;
      } else if index + 1 == length {
        ready := true;
      } else {
        index := index + 1;
      }
    }

    /** `__parse_message`: one byte; a complete frame is handled at once. */
    method ParseByte(b: Byte) returns (raised: bool)
      modifies this
      ensures Stepped(View(), raised) == Step(old(View()), b)
    {
      var ready := false;
      match phase {
        case HeaderB1 =>
          raised := ReadHeaderB1(b);
        case HeaderB2 =>
          ready, raised := ReadHeaderB2(b);
        case LengthShort =>
          ready, raised := ReadLength(b, 2);
        case LengthLong =>
          ready, raised := ReadLength(b, 8);
        case MaskBytes =>
          ready, raised := ReadMask(b);
        case Payload =>
          ready, raised := ReadPayload(b);
      }
      if ready {
        raised := CompleteFrame();
      }
    }

    /**
     * `receive_data` once the handshake is done: the bytes of one `recv`,
     * parsed in order until one raises. An empty read means the peer closed
     * the socket, which raises.
     */
    method ReceiveBytes(data: seq<Byte>) returns (raised: bool)
      modifies this
      ensures |data| == 0 ==> raised && View() == old(View())
      ensures |data| > 0 ==> Stepped(View(), raised) == Feed(old(View()), data)
    {
      if |data| == 0 {
        return true;
      }
      var i := 0;
      raised := false;
      while i < |data|
        invariant 0 <= i <= |data|
        invariant Feed(old(View()), data) == Feed(View(), data[i..])
      {
        assert data[i..][1..] == data[i + 1..];
        raised := ParseByte(data[i]);
        if raised {
          return;
        }
        i := i + 1;
      }
    }
  }
}
