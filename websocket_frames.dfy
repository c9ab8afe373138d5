// The WebSocket framing of the gateway's WAMP server
// (miniserver_gateway/exchanges/websockets/client.py), following RFC 6455:
// the frame the server sends (section 5.2, always final and unmasked), the
// byte-at-a-time receive parser as a state machine over a value, the close
// handshake's status rule (section 7.4) and fragmentation (section 5.4).
// The client class in WebSocketClient is proved against these functions.

module WebSocketFrames {
  import opened Common

  // ---------------------------------------------------------------------------
  // Opcodes (section 5.2 of RFC 6455)

  const OpStream: int := 0x0
  const OpText: int := 0x1
  const OpBinary: int := 0x2
  const OpClose: int := 0x8
  const OpPing: int := 0x9
  const OpPong: int := 0xA

  /** A payload that reaches this many bytes is refused. */
  const MaxPayload: nat := 33554432

  /** The close status codes the client accepts as sent by its peer. */
  const ValidStatusCodes: seq<int> := [1000, 1001, 1002, 1003, 1007, 1008, 1009, 1010, 1011, 3000, 3999, 4000, 4999]

  /** 2^64: a length that `struct.pack("!Q")` cannot pack. */
  const Limit64: nat := 0x1_0000_0000_0000_0000

  /** 256 to the power k. */
  function Pow256(k: nat): (p: nat)
    ensures p >= 1
  {
    if k == 0 then 1 else 256 * Pow256(k - 1)
  }

  // ---------------------------------------------------------------------------
  // Big-endian fields (`struct.pack("!H")`, `struct.pack("!Q")` and unpack)

  /** `n` as `k` big-endian bytes (the low `k` bytes of `n`). */
  function BigEndianBytes(n: nat, k: nat): (bs: seq<Byte>)
    ensures |bs| == k
  {
    if k == 0 then [] else BigEndianBytes(n / 256, k - 1) + [n % 256]
  }

  /** The number big-endian bytes stand for. */
  function BigEndian(bs: seq<Byte>): (n: nat)
    ensures n < Pow256(|bs|)
  {
    if |bs| == 0 then 0 else BigEndian(bs[..|bs| - 1]) * 256 + bs[|bs| - 1]
  }

  /** Two bytes hold the numbers below 65536, eight those below 2^64. */
  lemma Pow256Widths()
    ensures Pow256(2) == 65536 && Pow256(8) == Limit64
  {
    assert Pow256(1) == 256;
    assert Pow256(2) == 65536;
    assert Pow256(4) == 0x1_0000_0000 by { assert Pow256(3) == 0x100_0000; }
    assert Pow256(6) == 0x1_0000_0000_0000 by { assert Pow256(5) == 0x100_0000_0000; }
    assert Pow256(7) == 0x100_0000_0000_0000;
  }

  /** Packing a number that fits and unpacking it gives it back. */
  lemma {:induction false} BigEndianRoundTrip(n: nat, k: nat)
    requires n < Pow256(k)
    ensures BigEndian(BigEndianBytes(n, k)) == n
  {
    if k > 0 {
      var bs := BigEndianBytes(n, k);
      assert bs[..k - 1] == BigEndianBytes(n / 256, k - 1);
      BigEndianRoundTrip(n / 256, k - 1);
    }
  }

  // ---------------------------------------------------------------------------
  // The frame the server sends (`__send_message`)

  /**
   * The payload length field: up to 125 in the seven bits of the second
   * byte, up to 65535 as the marker 126 and two bytes, beyond as the marker
   * 127 and eight bytes.
   */
  function LengthField(length: nat): (r: seq<Byte>)
    requires length < Limit64
    ensures |r| >= 1 && r[0] == if length <= 125 then length else if length <= 65535 then 126 else 127
  {
    if length <= 125 then [length]
    else if length <= 65535 then [126] + BigEndianBytes(length, 2)
    else [127] + BigEndianBytes(length, 8)
  }

  /**
   * `__send_message(False, opcode, data)`: the first byte carries the FIN
   * bit (every caller passes `fin=False`, which sets it) and the opcode; the
   * length field follows; the server does not mask.
   */
  function Frame(opcode: int, data: seq<Byte>): (r: seq<Byte>)
    requires 0 <= opcode < 16
    requires |data| < Limit64
    ensures |r| >= 2
    ensures r[0] / 16 == 8 && r[0] % 16 == opcode
    ensures r[1] < 128
    ensures |r| >= |data| && r[|r| - |data|..] == data
  {
    [0x80 + opcode] + LengthField(|data|) + data
  }

  // ---------------------------------------------------------------------------
  // Masking (section 5.3 of RFC 6455)

  /** 2 to the power k. */
  function Pow2(k: nat): (p: nat)
    ensures p >= 1
  {
    if k == 0 then 1 else 2 * Pow2(k - 1)
  }

  /** Bitwise exclusive or of the low `k` bits of two numbers. */
  function XorBits(a: nat, b: nat, k: nat): (r: nat)
    ensures r < Pow2(k)
  {
    if k == 0 then 0 else 2 * XorBits(a / 2, b / 2, k - 1) + (if a % 2 == b % 2 then 0 else 1)
  }

  /** `byte ^ mask`. */
  function Xor(a: Byte, b: Byte): Byte
  {
    assert Pow2(8) == 256 by { assert Pow2(4) == 16; }
    XorBits(a, b, 8)
  }

  /** Exclusive or with the same bits twice gives a number below 2^k back. */
  lemma {:induction false} XorBitsTwice(a: nat, m: nat, k: nat)
    requires a < Pow2(k)
    ensures XorBits(XorBits(a, m, k), m, k) == a
  {
    if k > 0 {
      var high := XorBits(a / 2, m / 2, k - 1);
      var low := if a % 2 == m % 2 then 0 else 1;
      var r := 2 * high + low;
      assert XorBits(a, m, k) == r;
      assert r / 2 == high && r % 2 == low;
      XorBitsTwice(a / 2, m / 2, k - 1);
      assert XorBits(r, m, k) == 2 * (a / 2) + a % 2;
    }
  }

  /** Masking twice with the same key gives the byte back. */
  lemma XorTwice(a: Byte, m: Byte)
    ensures Xor(Xor(a, m), m) == a
  {
    assert Pow2(8) == 256 by { assert Pow2(4) == 16; }
    XorBitsTwice(a, m, 8);
  }

  /** Payload byte i XORed with key byte i mod 4. */
  function Masked(data: seq<Byte>, mask: seq<Byte>): (r: seq<Byte>)
    requires |mask| == 4
    ensures |r| == |data|
  {
    seq(|data|, i requires 0 <= i < |data| => Xor(data[i], mask[i % 4]))
  }

  /** The payload bytes on the wire: masked with the key, or as they are. */
  function Wire(data: seq<Byte>, mask: seq<Byte>): (r: seq<Byte>)
    requires |mask| == 0 || |mask| == 4
    ensures |r| == |data|
  {
    if |mask| == 4 then Masked(data, mask) else data
  }

  /** The first header byte: the FIN bit and the opcode. */
  function FirstByte(fin: bool, opcode: int): Byte
    requires 0 <= opcode < 16
  {
    (if fin then 0x80 else 0) + opcode
  }

  /** The second header byte: the mask bit and the seven-bit length or marker. */
  function SecondByte(masked: bool, length7: int): Byte
    requires 0 <= length7 < 128
  {
    (if masked then 0x80 else 0) + length7
  }

  /**
   * A frame as a peer may send it: final or not, masked with a four-byte
   * key or unmasked (`mask == []`). The server's own frames are the final,
   * unmasked ones.
   */
  function PeerFrame(fin: bool, opcode: int, data: seq<Byte>, mask: seq<Byte>): seq<Byte>
    requires 0 <= opcode < 16
    requires |data| < Limit64
    requires |mask| == 0 || |mask| == 4
  {
    var field := LengthField(|data|);
    [FirstByte(fin, opcode)] + ([SecondByte(|mask| == 4, field[0])] + (field[1..] + (mask + Wire(data, mask))))
  }

  /** The server's frame is the final, unmasked peer frame. */
  lemma FrameIsPeerFrame(opcode: int, data: seq<Byte>)
    requires 0 <= opcode < 16
    requires |data| < Limit64
    ensures Frame(opcode, data) == PeerFrame(true, opcode, data, [])
  {
    var field := LengthField(|data|);
    assert field == [field[0]] + field[1..];
  }

  // ---------------------------------------------------------------------------
  // UTF-8 (the strict decoder the close handling and text fragments use)

  /** How many bytes the sequence a lead byte starts has; 0 for a byte no well-formed sequence starts with. */
  function SequenceLength(lead: Byte): nat
  {
    if lead < 0x80 then 1
    else if 0xC2 <= lead <= 0xDF then 2
    else if 0xE0 <= lead <= 0xEF then 3
    else if 0xF0 <= lead <= 0xF4 then 4
    else 0
  }

  /** Whether `b` may follow `lead` as the second byte of a sequence (Table 3-7 of the Unicode Standard). */
  predicate SecondByteOk(lead: Byte, b: Byte)
  {
    if lead == 0xE0 then 0xA0 <= b <= 0xBF
    else if lead == 0xED then 0x80 <= b <= 0x9F
    else if lead == 0xF0 then 0x90 <= b <= 0xBF
    else if lead == 0xF4 then 0x80 <= b <= 0x8F
    else 0x80 <= b <= 0xBF
  }

  /** A continuation byte. */
  predicate Continuation(b: Byte)
  {
    0x80 <= b <= 0xBF
  }

  /** `bs` is the beginning of one well-formed sequence: its lead byte and the bytes after it so far are allowed. */
  predicate SequencePrefix(bs: seq<Byte>)
  {
    |bs| >= 1 && SequenceLength(bs[0]) >= |bs| &&
    (|bs| >= 2 ==> SecondByteOk(bs[0], bs[1])) &&
    (forall i :: 2 <= i < |bs| ==> Continuation(bs[i]))
  }

  /** The bytes decode with `errors="strict"`: well-formed UTF-8 throughout. */
  predicate ValidUtf8(bs: seq<Byte>)
    decreases |bs|
  {
    if |bs| == 0 then true
    else
      var n := SequenceLength(bs[0]);
      n > 0 && n <= |bs| && SequencePrefix(bs[..n]) && ValidUtf8(bs[n..])
  }

  /**
   * The bytes decode without error when more may follow (`final=False`):
   * well-formed UTF-8, possibly ending in the unfinished beginning of one
   * more character.
   */
  predicate Utf8Prefix(bs: seq<Byte>)
    decreases |bs|
  {
    if |bs| == 0 then true
    else
      var n := SequenceLength(bs[0]);
      n > 0 && if n <= |bs| then SequencePrefix(bs[..n]) && Utf8Prefix(bs[n..]) else SequencePrefix(bs)
  }

  /**
   * What the incremental decoder does with `final=False` on bytes it has
   * held back so far: it returns no text and raises no error exactly when
   * they are empty or the unfinished beginning of one character.
   */
  predicate DecodesToNothing(bs: seq<Byte>)
  {
    |bs| == 0 || (SequencePrefix(bs) && |bs| < SequenceLength(bs[0]))
  }

  /** The beginning of a sequence's beginning is one too. */
  lemma SequencePrefixShorter(bs: seq<Byte>, k: nat)
    requires SequencePrefix(bs) && 1 <= k <= |bs|
    ensures SequencePrefix(bs[..k])
  {
    assert bs[..k][0] == bs[0];
    assert forall i :: 2 <= i < k ==> bs[..k][i] == bs[i];
  }

  /** Whatever begins well-formed UTF-8 the decoder accepts while more may follow. */
  lemma {:induction false} ValidUtf8Prefix(a: seq<Byte>, b: seq<Byte>)
    requires ValidUtf8(a + b)
    ensures Utf8Prefix(a)
    decreases |a|
  {
    if |a| > 0 {
      var ab := a + b;
      assert ab[0] == a[0];
      var n := SequenceLength(a[0]);
      if n <= |a| {
        assert ab[..n] == a[..n];
        assert ab[n..] == a[n..] + b;
        ValidUtf8Prefix(a[n..], b);
      } else {
        SequencePrefixShorter(ab[..n], |a|);
        assert ab[..n][..|a|] == a;
      }
    }
  }

  // The close handshake (section 7.4 of RFC 6455)

  /** The status and reason of a close reply. */
  datatype CloseReply = CloseReply(status: int, reason: seq<Byte>)

  /**
   * The close the client answers a close frame with: 1000 for an empty
   * body; 1002 for a one-byte body, for a status not in the list, and for a
   * reason that is not UTF-8; otherwise the peer's own status and reason.
   * The reason is sent back as received (an invalid one as the raw bytes).
   */
  function CloseReplyTo(body: seq<Byte>): (r: CloseReply)
    ensures r.status in ValidStatusCodes
    ensures r.reason == if |body| < 2 then [] else body[2..]
  {
    if |body| == 0 then CloseReply(1000, [])
    else if |body| == 1 then CloseReply(1002, [])
    else
      var status := Word(body[0], body[1]);
      var reason := body[2..];
      var checked := if status in ValidStatusCodes then status else 1002;
      CloseReply(if |reason| > 0 && !ValidUtf8(reason) then 1002 else checked, reason)
  }

  /** `struct.pack("!H", status)` followed by the reason. */
  function CloseBody(status: int, reason: seq<Byte>): seq<Byte>
    requires 0 <= status < 65536
  {
    BigEndianBytes(status, 2) + reason
  }

  /**
   * The reply always carries a valid status, and a close body with a valid
   * status and a UTF-8 reason is echoed back unchanged.
   */
  lemma CloseReplyIsValid(body: seq<Byte>)
    ensures CloseReplyTo(body).status in ValidStatusCodes
    ensures |body| >= 2 && Word(body[0], body[1]) in ValidStatusCodes && ValidUtf8(body[2..]) ==>
              CloseBody(CloseReplyTo(body).status, CloseReplyTo(body).reason) == body
  {
    if |body| >= 2 && Word(body[0], body[1]) in ValidStatusCodes && ValidUtf8(body[2..]) {
      var status := Word(body[0], body[1]);
      BigEndianRoundTrip(status, 2);
      var two := BigEndianBytes(status, 2);
      assert two[..1] == BigEndianBytes(status / 256, 1);
      assert two[0] == body[0] && two[1] == body[1];
      assert CloseBody(status, body[2..]) == body;
    }
  }

  // ---------------------------------------------------------------------------
  // The receive parser (`__parse_message` and `__handle_packet`) as values

  /** `__state`: HEADER_B1 = 1, HEADER_B2 = 3, LENGTH_SHORT = 4, LENGTH_LONG = 5, MASK = 6, PAYLOAD = 7. */
  datatype Phase = HeaderB1 | HeaderB2 | LengthShort | LengthLong | MaskBytes | Payload

  /** The fields `__parse_message` assembles one frame in. */
  datatype FrameState = FrameState(
    phase: Phase, fin: bool, opcode: int, hasMask: bool, mask: seq<Byte>, length: nat,
    lengthBytes: seq<Byte>, index: nat, received: seq<Byte>)

  /** What one byte does to the frame: more to read, a raise, or a complete frame to handle. */
  datatype Parsed = Next(f: FrameState) | Fail(f: FrameState) | Ready(f: FrameState)

  /** A frame waiting in the send queue with its opcode. */
  datatype Queued = Queued(opcode: int, frame: seq<Byte>)

  /**
   * The client's receive state: the frame being assembled, the fragmented
   * message being collected, whether a close was sent, the send queue, and
   * the payloads handed to `handle_message`, in order.
   */
  datatype ClientView = ClientView(
    frame: FrameState, fragStart: bool, fragType: int, fragBuffer: seq<Byte>, closed: bool,
    queue: seq<Queued>, messages: seq<seq<Byte>>)

  /** The view after one step and whether the step raised. */
  datatype Stepped = Stepped(view: ClientView, raised: bool)

  /** A new client: waiting for a first header byte, nothing queued. */
  const InitialView := ClientView(FrameState(HeaderB1, false, 0, false, [], 0, [], 0, []), false, OpBinary, [], false, [], [])

  /** `__send_message`: the frame joins the send queue. */
  function QueueFrame(v: ClientView, opcode: int, data: seq<Byte>): ClientView
    requires 0 <= opcode < 16 && |data| < Limit64
  {
    v.(queue := v.queue + [Queued(opcode, Frame(opcode, data))])
  }

  /**
   * `send_close`: the first call queues a close frame; every call leaves the
   * client closed. A status that does not fit two bytes makes the packing
   * raise (the client is closed all the same).
   */
  function QueueClose(v: ClientView, status: int, reason: seq<Byte>): Stepped
  {
    if v.closed then Stepped(v, false)
    else if !(0 <= status < 65536) || 2 + |reason| >= Limit64 then Stepped(v.(closed := true), true)
    else Stepped(QueueFrame(v, OpClose, CloseBody(status, reason)).(closed := true), false)
  }

  /** `handle_message`: the payload goes to the WAMP layer. */
  function Deliver(v: ClientView, payload: seq<Byte>): ClientView
  {
    v.(messages := v.messages + [payload])
  }

  /** The fragment state once a fragmented message is complete. */
  function FragmentsReset(v: ClientView): ClientView
  {
    v.(fragStart := false, fragType := OpBinary, fragBuffer := [])
  }

  /** The opcodes `__handle_packet` knows. */
  predicate KnownOpcode(op: int)
  {
    op == OpClose || op == OpStream || op == OpText || op == OpBinary || op == OpPong || op == OpPing
  }

  /**
   * `__handle_packet` for a complete frame, with text fragments handled as
   * evidently intended. Unknown opcodes and control frames longer than 125
   * bytes raise. A close frame is answered. A non-final frame starts a
   * fragmented message (a new start abandons an open one) or continues the
   * open one. A final continuation completes it. A final ping is answered
   * with a pong of the same payload. A final text or binary frame is
   * delivered unless a fragmented message is open. Fragments of a text
   * message are collected as bytes and raise as soon as they stop being
   * the beginning of well-formed UTF-8, and the whole must be well-formed.
   */
  function HandlePacket(v: ClientView): (r: Stepped)
    ensures !KnownOpcode(v.frame.opcode) ==> r == Stepped(v, true)
    ensures r.view.frame == v.frame
    ensures v.messages <= r.view.messages && v.queue <= r.view.queue
    ensures |r.view.messages| <= |v.messages| + 1 && |r.view.queue| <= |v.queue| + 1
    ensures r.raised ==> r.view.messages == v.messages
    ensures v.closed ==> r.view.closed
  {
    var op := v.frame.opcode;
    var data := v.frame.received;
    if !KnownOpcode(op) then Stepped(v, true)
    else if (op == OpPong || op == OpPing) && |data| > 125 then Stepped(v, true)
    else if op == OpClose then
      var reply := CloseReplyTo(data);
      QueueClose(v, reply.status, reply.reason)
    else if !v.frame.fin then
      if op != OpStream then
        if op == OpPing || op == OpPong then Stepped(v, true)
        else Stepped(v.(fragType := op, fragStart := true, fragBuffer := data), op == OpText && !Utf8Prefix(data))
      else if !v.fragStart then Stepped(v, true)
      else
        var held := v.fragBuffer + data;
        Stepped(v.(fragBuffer := held), v.fragType == OpText && !Utf8Prefix(held))
    else if op == OpStream then
      var whole := v.fragBuffer + data;
      if !v.fragStart || (v.fragType == OpText && !ValidUtf8(whole)) then Stepped(v, true)
      else Stepped(FragmentsReset(Deliver(v, whole)), false)
    else if op == OpPing then Stepped(QueueFrame(v, OpPong, data), false)
    else if op == OpPong then Stepped(v, false)
    else if v.fragStart then Stepped(v, true)
    else Stepped(Deliver(v, data), false)
  }

  /**
   * `__handle_packet` as written. For text fragments the buffer stands for
   * the bytes the incremental decoder holds back: as soon as the decoder
   * yields text, appending that text to a byte array raises, and a final
   * continuation of a text message always raises. Every other frame is
   * handled as in HandlePacket.
   */
  function HandlePacketAsWritten(v: ClientView): (r: Stepped)
    ensures var text := (!v.frame.fin && v.frame.opcode == OpText) ||
                        (v.frame.opcode == OpStream && v.fragStart && v.fragType == OpText);
            (text ==> r.view.messages == v.messages && r.view.queue == v.queue && r.view.closed == v.closed) &&
            (v.frame.fin && v.frame.opcode == OpStream && v.fragStart && v.fragType == OpText ==> r.raised) &&
            (!v.frame.fin && v.frame.opcode == OpText ==> (r.raised <==> !DecodesToNothing(v.frame.received))) &&
            (!text ==> r == HandlePacket(v))
  {
    var data := v.frame.received;
    var textStart := !v.frame.fin && v.frame.opcode == OpText;
    var textContinued := v.frame.opcode == OpStream && v.fragStart && v.fragType == OpText;
    if textStart then
      Stepped(v.(fragType := OpText, fragStart := true, fragBuffer := data), !DecodesToNothing(data))
    else if textContinued && !v.frame.fin then
      var held := v.fragBuffer + data;
      Stepped(v.(fragBuffer := held), !DecodesToNothing(held))
    else if textContinued then Stepped(v, true)
    else HandlePacket(v)
  }

  /** A complete frame: handle it, then (in a `finally`) wait for the next header with an empty buffer. */
  function Complete(v: ClientView): (r: Stepped)
    ensures r.view.frame.phase == HeaderB1 && r.view.frame.received == []
  {
    var h := HandlePacket(v);
    Stepped(h.view.(frame := h.view.frame.(phase := HeaderB1, received := [])), h.raised)
  }

  /** Once the length is known: read the mask, complete an empty frame, or start the payload. */
  function AfterLength(f: FrameState): (r: Parsed)
    ensures r.Next? ==> r.f.phase == MaskBytes || r.f.phase == Payload
    ensures r.Ready? ==> r.f == f
  {
    if f.hasMask then Next(f.(mask := [], phase := MaskBytes))
    else if f.length == 0 then Ready(f)
    else Next(f.(received := [], phase := Payload))
  }

  /** HEADER_B1: FIN bit, opcode and the reserved bits, which must be zero. */
  function HeaderB1Step(f: FrameState, b: Byte): (r: Parsed)
    ensures !r.Ready? && r.f.phase == HeaderB2
  {
    var g := f.(fin := b >= 0x80, opcode := b % 16, phase := HeaderB2, index := 0, length := 0,
                lengthBytes := [], received := []);
    if (b / 16) % 8 != 0 then Fail(g) else Next(g)
  }

  /** HEADER_B2: the mask bit and the seven-bit length or the marker of a longer field. */
  function HeaderB2Step(f: FrameState, b: Byte): (r: Parsed)
    ensures r.Next? ==> Advances(HeaderB2, r.f.phase)
    ensures r.Ready? ==> r.f.phase == f.phase
  {
    var length := b % 128;
    if f.opcode == OpPing && length > 125 then Fail(f)
    else
      var g := f.(hasMask := b >= 0x80);
      if length <= 125 then AfterLength(g.(length := length))
      else if length == 126 then Next(g.(lengthBytes := [], phase := LengthShort))
      else Next(g.(lengthBytes := [], phase := LengthLong))
  }

  /** LENGTH_SHORT and LENGTH_LONG: collect the `size` bytes of the length field. */
  function LengthStep(f: FrameState, b: Byte, size: nat): (r: Parsed)
    ensures r.Next? ==> r.f.phase in {f.phase, MaskBytes, Payload}
    ensures r.Ready? ==> r.f.phase == f.phase
  {
    var bytes := f.lengthBytes + [b];
    var g := f.(lengthBytes := bytes);
    if |bytes| > size then Fail(g)
    else if |bytes| == size then AfterLength(g.(length := BigEndian(bytes)))
    else Next(g)
  }

  /** MASK: collect the four key bytes. */
  function MaskStep(f: FrameState, b: Byte): (r: Parsed)
    ensures r.Next? ==> r.f.phase in {f.phase, Payload}
    ensures r.Ready? ==> r.f.phase == f.phase
  {
    var key := f.mask + [b];
    var g := f.(mask := key);
    if |key| > 4 then Fail(g)
    else if |key| == 4 then
      if g.length == 0 then Ready(g) else Next(g.(received := [], phase := Payload))
    else Next(g)
  }

  /** PAYLOAD: unmask and collect one byte; the frame completes at its declared length. */
  function PayloadStep(f: FrameState, b: Byte): (r: Parsed)
    ensures r.f.phase == f.phase
  {
    if f.hasMask && f.index % 4 >= |f.mask| then Fail(f)
    else
      var byte := if f.hasMask then Xor(b, f.mask[f.index % 4]) else b;
      var g := f.(received := f.received + [byte]);
      if |g.received| >= MaxPayload then Fail(g)
      else if f.index + 1 == f.length then Ready(g)
      else Next(g.(index := f.index + 1))
  }

  /**
   * The order of the phases within one frame: the header bytes, the length
   * field (short or long), the mask key, the payload.
   */
  predicate Advances(p: Phase, q: Phase)
  {
    match p
    case HeaderB1 => q == HeaderB2
    case HeaderB2 => q != HeaderB1 && q != HeaderB2
    case LengthShort => q == LengthShort || q == MaskBytes || q == Payload
    case LengthLong => q == LengthLong || q == MaskBytes || q == Payload
    case MaskBytes => q == MaskBytes || q == Payload
    case Payload => q == Payload
  }

  /** `__parse_message` on the frame fields: one received byte. */
  function Parse(f: FrameState, b: Byte): (r: Parsed)
    ensures r.Next? ==> Advances(f.phase, r.f.phase)
    ensures r.Ready? ==> f.phase != HeaderB1 && r.f.phase == f.phase
  {
    match f.phase
    case HeaderB1 => HeaderB1Step(f, b)
    case HeaderB2 => HeaderB2Step(f, b)
    case LengthShort => LengthStep(f, b, 2)
    case LengthLong => LengthStep(f, b, 8)
    case MaskBytes => MaskStep(f, b)
    case Payload => PayloadStep(f, b)
  }

  /** `__parse_message`: one received byte; a complete frame is handled at once. */
  function Step(v: ClientView, b: Byte): (r: Stepped)
    ensures Parse(v.frame, b).Fail? ==> r.raised
    ensures Parse(v.frame, b).Next? ==> !r.raised && r.view.messages == v.messages
    ensures Parse(v.frame, b).Ready? ==> r.view.frame.phase == HeaderB1 && r.view.frame.received == []
    ensures v.messages <= r.view.messages && v.queue <= r.view.queue
    ensures v.closed ==> r.view.closed
  {
    match Parse(v.frame, b)
    case Next(g) => Stepped(v.(frame := g), false)
    case Fail(g) => Stepped(v.(frame := g), true)
    case Ready(g) => Complete(v.(frame := g))
  }

  /** The bytes of one `recv`, parsed in order; the first step that raises ends the call. */
  function Feed(v: ClientView, bs: seq<Byte>): (r: Stepped)
    ensures v.messages <= r.view.messages && v.queue <= r.view.queue
    ensures v.closed ==> r.view.closed
    decreases |bs|
  {
    if |bs| == 0 then Stepped(v, false)
    else
      var s := Step(v, bs[0]);
      if s.raised then s else Feed(s.view, bs[1..])
  }

  /** What the rest of the bytes make of a step, unless it raised. */
  function Then(s: Stepped, bs: seq<Byte>): Stepped
  {
    if s.raised then s else Feed(s.view, bs)
  }

  /** One byte, then the rest. */
  lemma FeedCons(v: ClientView, b: Byte, bs: seq<Byte>)
    ensures Feed(v, [b] + bs) == Then(Step(v, b), bs)
  {
    assert ([b] + bs)[1..] == bs;
  }

  /** Parsing two chunks one after the other is parsing them together. */
  lemma {:induction false} FeedAppend(v: ClientView, a: seq<Byte>, b: seq<Byte>)
    ensures Feed(v, a + b) == Then(Feed(v, a), b)
    decreases |a|
  {
    if |a| > 0 {
      assert a + b == [a[0]] + (a[1..] + b);
      assert a == [a[0]] + a[1..];
      FeedCons(v, a[0], a[1..] + b);
      FeedCons(v, a[0], a[1..]);
      var s := Step(v, a[0]);
      if !s.raised {
        FeedAppend(s.view, a[1..], b);
      }
    } else {
      assert a + b == b;
    }
  }

  // ---------------------------------------------------------------------------
  // Whole frames through the parser

  /**
   * Parsing `bs` from `f` when the frame completes exactly at the last
   * byte: the frame `__handle_packet` then sees.
   */
  function Assemble(f: FrameState, bs: seq<Byte>): Option<FrameState>
    decreases |bs|, 0
  {
    if |bs| == 0 then None else Continue(Parse(f, bs[0]), bs[1..])
  }

  /** What is left of an assembly after one byte's outcome. */
  function Continue(p: Parsed, bs: seq<Byte>): Option<FrameState>
    decreases |bs|, 1
  {
    if |bs| == 0 then (if p.Ready? then Some(p.f) else None)
    else if p.Next? then Assemble(p.f, bs)
    else None
  }

  /** Assembly, one byte at a time. */
  lemma AssembleCons(f: FrameState, b: Byte, bs: seq<Byte>)
    ensures Assemble(f, [b] + bs) == Continue(Parse(f, b), bs)
  {
    assert ([b] + bs)[1..] == bs;
  }

  /** An assembled frame is handled once its last byte arrives, and parsing goes on after it. */
  lemma {:induction false} FeedAssembled(v: ClientView, bs: seq<Byte>, rest: seq<Byte>)
    requires Assemble(v.frame, bs).Some?
    ensures Feed(v, bs + rest) == Then(Complete(v.(frame := Assemble(v.frame, bs).value)), rest)
    decreases |bs|
  {
    assert bs + rest == [bs[0]] + (bs[1..] + rest);
    FeedCons(v, bs[0], bs[1..] + rest);
    var p := Parse(v.frame, bs[0]);
    if |bs| > 1 {
      FeedAssembled(v.(frame := p.f), bs[1..], rest);
    }
  }

  /** One payload byte: unmasked, collected, and the frame completed at its declared length. */
  lemma PayloadByte(f: FrameState, data: seq<Byte>, mask: seq<Byte>, k: nat)
    requires |mask| == 0 || |mask| == 4
    requires f.phase == Payload && f.hasMask == (|mask| == 4) && (|mask| == 4 ==> f.mask == mask)
    requires f.length == |data| && k < |data| < MaxPayload && f.index == k && f.received == data[..k]
    ensures Parse(f, Wire(data, mask)[k]) ==
              if k + 1 < |data| then Next(f.(received := data[..k + 1], index := k + 1))
              else Ready(f.(received := data))
  {
    var b := Wire(data, mask)[k];
    assert (if f.hasMask then Xor(b, f.mask[k % 4]) else b) == data[k] by {
      if |mask| == 4 {
        XorTwice(data[k], mask[k % 4]);
      }
    }
    assert f.received + [data[k]] == data[..k + 1];
    assert k + 1 == |data| ==> data[..k + 1] == data;
  }

  /** The payload from byte `k` on: unmasked and collected up to the declared length. */
  lemma {:induction false} AssemblePayload(f: FrameState, data: seq<Byte>, mask: seq<Byte>, k: nat)
    requires |mask| == 0 || |mask| == 4
    requires f.phase == Payload && f.hasMask == (|mask| == 4) && (|mask| == 4 ==> f.mask == mask)
    requires f.length == |data| && k < |data| < MaxPayload && f.index == k && f.received == data[..k]
    ensures Assemble(f, Wire(data, mask)[k..]) == Some(f.(index := |data| - 1, received := data))
    decreases |data| - k
  {
    var wire := Wire(data, mask);
    assert wire[k..] == [wire[k]] + wire[k + 1..];
    AssembleCons(f, wire[k], wire[k + 1..]);
    PayloadByte(f, data, mask, k);
    if k + 1 < |data| {
      AssemblePayload(f.(received := data[..k + 1], index := k + 1), data, mask, k + 1);
    }
  }

  /** The four mask bytes. */
  lemma AssembleMask(u: FrameState, mask: seq<Byte>, rest: seq<Byte>)
    requires |mask| == 4 && u.phase == MaskBytes && u.mask == []
    ensures Assemble(u, mask + rest) ==
              var g := u.(mask := mask);
              Continue(if g.length == 0 then Ready(g) else Next(g.(received := [], phase := Payload)), rest)
  {
    var r3 := [mask[3]] + rest;
    var r2 := [mask[2]] + r3;
    var r1 := [mask[1]] + r2;
    assert mask + rest == [mask[0]] + r1;
    assert [] + [mask[0]] == mask[..1];
    assert mask[..1] + [mask[1]] == mask[..2];
    assert mask[..2] + [mask[2]] == mask[..3];
    assert mask[..3] + [mask[3]] == mask;
    AssembleCons(u, mask[0], r1);
    AssembleCons(u.(mask := mask[..1]), mask[1], r2);
    AssembleCons(u.(mask := mask[..2]), mask[2], r3);
    AssembleCons(u.(mask := mask[..3]), mask[3], rest);
  }

  /** One byte of an extended length field. */
  lemma LengthByte(u: FrameState, b: Byte, size: nat)
    requires size == 2 || size == 8
    requires u.phase == (if size == 2 then LengthShort else LengthLong) && |u.lengthBytes| < size
    ensures Parse(u, b) ==
              var bytes := u.lengthBytes + [b];
              if |bytes| == size then AfterLength(u.(lengthBytes := bytes, length := BigEndian(bytes)))
              else Next(u.(lengthBytes := bytes))
  {
  }

  /** The bytes of an extended length field, big-endian, ending in what the length calls for. */
  lemma {:induction false} AssembleLength(u: FrameState, bs: seq<Byte>, size: nat, rest: seq<Byte>)
    requires size == 2 || size == 8
    requires u.phase == (if size == 2 then LengthShort else LengthLong)
    requires 1 <= |bs| && |u.lengthBytes| + |bs| == size
    ensures Assemble(u, bs + rest) ==
              var bytes := u.lengthBytes + bs;
              Continue(AfterLength(u.(lengthBytes := bytes, length := BigEndian(bytes))), rest)
    decreases |bs|
  {
    assert bs + rest == [bs[0]] + (bs[1..] + rest);
    AssembleCons(u, bs[0], bs[1..] + rest);
    var u1 := u.(lengthBytes := u.lengthBytes + [bs[0]]);
    LengthByte(u, bs[0], size);
    if |bs| > 1 {
      AssembleLength(u1, bs[1..], size, rest);
      assert u1.lengthBytes + bs[1..] == u.lengthBytes + bs;
    } else {
      assert u1.lengthBytes == u.lengthBytes + bs;
    }
  }

  /** The frame `__handle_packet` sees, from the fields as they were once the length was known. */
  function ReadyFrame(h: FrameState, data: seq<Byte>, mask: seq<Byte>): FrameState
  {
    var n := |data|;
    h.(mask := if |mask| == 4 then mask else h.mask,
       index := if n == 0 then 0 else n - 1, received := data,
       phase := if n > 0 then Payload else if |mask| == 4 then MaskBytes else h.phase)
  }

  /** The mask and the payload once the length is known. */
  lemma AssembleBody(h: FrameState, data: seq<Byte>, mask: seq<Byte>)
    requires |mask| == 0 || |mask| == 4
    requires h.hasMask == (|mask| == 4) && h.length == |data| < MaxPayload && h.index == 0 && h.received == []
    ensures Continue(AfterLength(h), mask + Wire(data, mask)) == Some(ReadyFrame(h, data, mask))
  {
    var wire := Wire(data, mask);
    assert wire[0..] == wire;
    if |mask| == 4 {
      var u := h.(mask := [], phase := MaskBytes);
      AssembleMask(u, mask, wire);
      if |data| > 0 {
        AssemblePayload(u.(mask := mask, received := [], phase := Payload), data, mask, 0);
      }
    } else if |data| > 0 {
      assert mask + wire == wire;
      AssemblePayload(h.(received := [], phase := Payload), data, mask, 0);
    }
  }

  /** The frame `__handle_packet` sees after a whole frame. */
  function LoadedFrame(f: FrameState, fin: bool, opcode: int, data: seq<Byte>, mask: seq<Byte>): (r: FrameState)
    requires |data| < Limit64
    ensures r.fin == fin && r.opcode == opcode && r.received == data
  {
    ReadyFrame(HeaderRead(f, fin, opcode, |data|, |mask| == 4), data, mask)
  }

  /** The fields once the length of a frame is known, from those before its first byte. */
  function HeaderRead(f: FrameState, fin: bool, opcode: int, n: nat, masked: bool): FrameState
    requires n < Limit64
  {
    f.(fin := fin, opcode := opcode,
       phase := if n <= 125 then HeaderB2 else if n <= 65535 then LengthShort else LengthLong,
       index := 0, length := n, lengthBytes := LengthField(n)[1..], received := [], hasMask := masked)
  }

  /** The two header bytes: the first starts the frame, the second gives the length or announces the field. */
  lemma HeaderBytes(f: FrameState, fin: bool, opcode: int, n: nat, masked: bool)
    requires f.phase == HeaderB1 && 0 <= opcode < 16 && (opcode == OpPing ==> n <= 125) && n < Limit64
    ensures var f1 := f.(fin := fin, opcode := opcode, phase := HeaderB2, index := 0, length := 0,
                         lengthBytes := [], received := []);
            var field := LengthField(n);
            var h := HeaderRead(f, fin, opcode, n, masked);
            Parse(f, FirstByte(fin, opcode)) == Next(f1) &&
            Parse(f1, SecondByte(masked, field[0])) ==
              if n <= 125 then AfterLength(h)
              else Next(h.(lengthBytes := [], length := 0))
  {
  }

  /** An extended length field, once the second header byte announced it. */
  lemma AssembleExtended(f: FrameState, fin: bool, opcode: int, n: nat, masked: bool, body: seq<Byte>)
    requires 125 < n < Limit64
    ensures var h := HeaderRead(f, fin, opcode, n, masked);
            Assemble(h.(lengthBytes := [], length := 0), LengthField(n)[1..] + body) == Continue(AfterLength(h), body)
  {
    Pow256Widths();
    var h := HeaderRead(f, fin, opcode, n, masked);
    var size := if n <= 65535 then 2 else 8;
    assert LengthField(n)[1..] == BigEndianBytes(n, size);
    AssembleLength(h.(lengthBytes := [], length := 0), BigEndianBytes(n, size), size, body);
    BigEndianRoundTrip(n, size);
    assert [] + BigEndianBytes(n, size) == BigEndianBytes(n, size);
    assert h.(lengthBytes := [], length := 0).(lengthBytes := BigEndianBytes(n, size), length := n) == h;
  }

  /**
   * A whole frame, final or not, masked or not, in any of the three length
   * encodings, is assembled into its opcode, FIN bit and unmasked payload.
   */
  lemma AssembleFrame(f: FrameState, fin: bool, opcode: int, data: seq<Byte>, mask: seq<Byte>)
    requires f.phase == HeaderB1
    requires 0 <= opcode < 16 && (opcode == OpPing ==> |data| <= 125)
    requires |data| < MaxPayload && (|mask| == 0 || |mask| == 4)
    ensures Assemble(f, PeerFrame(fin, opcode, data, mask)) == Some(LoadedFrame(f, fin, opcode, data, mask))
  {
    var n := |data|;
    var masked := |mask| == 4;
    var field := LengthField(n);
    var b1 := FirstByte(fin, opcode);
    var b2 := SecondByte(masked, field[0]);
    var body := mask + Wire(data, mask);
    var f1 := f.(fin := fin, opcode := opcode, phase := HeaderB2, index := 0, length := 0, lengthBytes := [], received := []);
    HeaderBytes(f, fin, opcode, n, masked);
    AssembleCons(f, b1, [b2] + (field[1..] + body));
    AssembleCons(f1, b2, field[1..] + body);
    var h := HeaderRead(f, fin, opcode, n, masked);
    if n <= 125 {
      assert field[1..] + body == body;
    } else {
      AssembleExtended(f, fin, opcode, n, masked, body);
    }
    AssembleBody(h, data, mask);
  }

  /** A whole frame reaches `__handle_packet`, and the bytes after it are parsed from a fresh header. */
  lemma FeedFrame(v: ClientView, fin: bool, opcode: int, data: seq<Byte>, mask: seq<Byte>, rest: seq<Byte>)
    requires v.frame.phase == HeaderB1
    requires 0 <= opcode < 16 && (opcode == OpPing ==> |data| <= 125)
    requires |data| < MaxPayload && (|mask| == 0 || |mask| == 4)
    ensures Feed(v, PeerFrame(fin, opcode, data, mask) + rest) ==
              Then(Complete(v.(frame := LoadedFrame(v.frame, fin, opcode, data, mask))), rest)
  {
    AssembleFrame(v.frame, fin, opcode, data, mask);
    FeedAssembled(v, PeerFrame(fin, opcode, data, mask), rest);
  }

  // ---------------------------------------------------------------------------
  // What the client does with whole frames

  /**
   * A final text or binary frame reaches `handle_message` whole when no
   * fragmented message is open; nothing is queued and the parser waits for
   * the next header.
   */
  lemma DataFrameDelivered(v: ClientView, opcode: int, data: seq<Byte>, mask: seq<Byte>)
    requires v.frame.phase == HeaderB1 && !v.fragStart
    requires opcode == OpText || opcode == OpBinary
    requires |data| < MaxPayload && (|mask| == 0 || |mask| == 4)
    ensures var r := Feed(v, PeerFrame(true, opcode, data, mask));
            !r.raised && r.view.messages == v.messages + [data] && r.view.queue == v.queue &&
            r.view.frame.phase == HeaderB1 && !r.view.fragStart && r.view.closed == v.closed
  {
    var bytes := PeerFrame(true, opcode, data, mask);
    FeedFrame(v, true, opcode, data, mask, []);
    assert bytes + [] == bytes;
  }

  /** A ping is answered with a pong carrying the same payload; nothing is delivered. */
  lemma PingAnswered(v: ClientView, data: seq<Byte>, mask: seq<Byte>)
    requires v.frame.phase == HeaderB1
    requires |data| <= 125 && (|mask| == 0 || |mask| == 4)
    ensures var r := Feed(v, PeerFrame(true, OpPing, data, mask));
            !r.raised && r.view.queue == v.queue + [Queued(OpPong, Frame(OpPong, data))] &&
            r.view.messages == v.messages && r.view.fragStart == v.fragStart &&
            r.view.fragBuffer == v.fragBuffer && r.view.closed == v.closed
  {
    var bytes := PeerFrame(true, OpPing, data, mask);
    FeedFrame(v, true, OpPing, data, mask, []);
    assert bytes + [] == bytes;
  }

  /**
   * A close frame is answered with one close frame carrying the status and
   * reason CloseReplyTo chooses (the peer's own body when it is valid), and
   * the client is closed; a client already closed queues nothing more.
   */
  lemma CloseAnswered(v: ClientView, fin: bool, body: seq<Byte>, mask: seq<Byte>)
    requires v.frame.phase == HeaderB1
    requires |body| < MaxPayload && (|mask| == 0 || |mask| == 4)
    ensures var r := Feed(v, PeerFrame(fin, OpClose, body, mask));
            var reply := CloseReplyTo(body);
            !r.raised && r.view.closed && r.view.messages == v.messages &&
            0 <= reply.status < 65536 &&
            r.view.queue == v.queue + (if v.closed then [] else [Queued(OpClose, Frame(OpClose, CloseBody(reply.status, reply.reason)))])
    ensures |body| >= 2 && Word(body[0], body[1]) in ValidStatusCodes && ValidUtf8(body[2..]) && !v.closed ==>
              Feed(v, PeerFrame(fin, OpClose, body, mask)).view.queue == v.queue + [Queued(OpClose, Frame(OpClose, body))]
  {
    var bytes := PeerFrame(fin, OpClose, body, mask);
    FeedFrame(v, fin, OpClose, body, mask, []);
    assert bytes + [] == bytes;
    var w := v.(frame := LoadedFrame(v.frame, fin, OpClose, body, mask));
    CloseReplyIsValid(body);
    CloseHandled(w);
    ThenNothing(Complete(w));
  }

  /** `__handle_packet` on a close frame. */
  lemma CloseHandled(w: ClientView)
    requires w.frame.opcode == OpClose && |w.frame.received| < MaxPayload
    ensures var r := Complete(w);
            var reply := CloseReplyTo(w.frame.received);
            !r.raised && r.view.closed && r.view.messages == w.messages &&
            r.view.queue == w.queue + (if w.closed then [] else [Queued(OpClose, Frame(OpClose, CloseBody(reply.status, reply.reason)))])
  {
    var reply := CloseReplyTo(w.frame.received);
    CloseReplyIsValid(w.frame.received);
    assert HandlePacket(w) == QueueClose(w, reply.status, reply.reason);
  }

  /** No more bytes: the step's outcome stands. */
  lemma ThenNothing(s: Stepped)
    ensures Then(s, []) == s
  {
  }

  /**
   * A non-final text or binary frame starts a fragmented message holding
   * its payload (a text fragment must begin well-formed UTF-8); nothing is
   * delivered or queued.
   */
  lemma FragmentStarted(v: ClientView, opcode: int, a: seq<Byte>, mask: seq<Byte>, rest: seq<Byte>)
    requires v.frame.phase == HeaderB1
    requires opcode == OpText || opcode == OpBinary
    requires opcode == OpText ==> Utf8Prefix(a)
    requires |a| < MaxPayload && (|mask| == 0 || |mask| == 4)
    ensures var s := Complete(v.(frame := LoadedFrame(v.frame, false, opcode, a, mask)));
            !s.raised && s.view.fragStart && s.view.fragType == opcode && s.view.fragBuffer == a &&
            s.view.messages == v.messages && s.view.queue == v.queue && s.view.frame.phase == HeaderB1 &&
            Feed(v, PeerFrame(false, opcode, a, mask) + rest) == Feed(s.view, rest)
  {
    FeedFrame(v, false, opcode, a, mask, rest);
    var w := v.(frame := LoadedFrame(v.frame, false, opcode, a, mask));
    FragmentOpened(w);
  }

  /** `__handle_packet` on a non-final text or binary frame. */
  lemma FragmentOpened(w: ClientView)
    requires !w.frame.fin && (w.frame.opcode == OpText || w.frame.opcode == OpBinary)
    requires w.frame.opcode == OpText ==> Utf8Prefix(w.frame.received)
    requires |w.frame.received| < MaxPayload
    ensures var s := Complete(w);
            !s.raised && s.view.fragStart && s.view.fragType == w.frame.opcode && s.view.fragBuffer == w.frame.received &&
            s.view.messages == w.messages && s.view.queue == w.queue
  {
    assert HandlePacket(w) == Stepped(w.(fragType := w.frame.opcode, fragStart := true, fragBuffer := w.frame.received), false);
  }

  /**
   * A final continuation completes an open fragmented message: the
   * collected payload and its own reach `handle_message` together (a text
   * message must be well-formed UTF-8 as a whole).
   */
  lemma FragmentFinished(u: ClientView, b: seq<Byte>, mask: seq<Byte>)
    requires u.frame.phase == HeaderB1 && u.fragStart
    requires u.fragType == OpText ==> ValidUtf8(u.fragBuffer + b)
    requires |b| < MaxPayload && (|mask| == 0 || |mask| == 4)
    ensures var r := Feed(u, PeerFrame(true, OpStream, b, mask));
            !r.raised && r.view.messages == u.messages + [u.fragBuffer + b] && r.view.queue == u.queue &&
            !r.view.fragStart && r.view.frame.phase == HeaderB1
  {
    var bytes := PeerFrame(true, OpStream, b, mask);
    FeedFrame(u, true, OpStream, b, mask, []);
    assert bytes + [] == bytes;
    var x := u.(frame := LoadedFrame(u.frame, true, OpStream, b, mask));
    assert HandlePacket(x) == Stepped(FragmentsReset(Deliver(x, u.fragBuffer + b)), false);
    ThenNothing(Complete(x));
  }

  /**
   * A message in two fragments, a non-final text or binary frame and a
   * final continuation, reaches `handle_message` as the concatenation of
   * the two payloads; a text message must be well-formed UTF-8 as a whole.
   */
  lemma FragmentedMessageDelivered(v: ClientView, opcode: int, a: seq<Byte>, b: seq<Byte>, m1: seq<Byte>, m2: seq<Byte>)
    requires v.frame.phase == HeaderB1
    requires opcode == OpText || opcode == OpBinary
    requires opcode == OpText ==> ValidUtf8(a + b)
    requires |a| < MaxPayload && |b| < MaxPayload
    requires (|m1| == 0 || |m1| == 4) && (|m2| == 0 || |m2| == 4)
    ensures var r := Feed(v, PeerFrame(false, opcode, a, m1) + PeerFrame(true, OpStream, b, m2));
            !r.raised && r.view.messages == v.messages + [a + b] && r.view.queue == v.queue &&
            !r.view.fragStart && r.view.frame.phase == HeaderB1
  {
    if opcode == OpText {
      ValidUtf8Prefix(a, b);
    }
    FragmentStarted(v, opcode, a, m1, PeerFrame(true, OpStream, b, m2));
    var s := Complete(v.(frame := LoadedFrame(v.frame, false, opcode, a, m1)));
    FragmentFinished(s.view, b, m2);
  }

  /**
   * As written, text fragments are lost: a first fragment holding a whole
   * character raises, and so does every final continuation of a text
   * message, where the corrected handling keeps the first and delivers the
   * whole message when it is well-formed UTF-8.
   */
  lemma FragmentedTextAsWritten(v: ClientView)
    ensures var w := v.(frame := v.frame.(fin := false, opcode := OpText, received := [0x61]));
            HandlePacketAsWritten(w).raised && !HandlePacket(w).raised
    ensures v.frame.fin && v.frame.opcode == OpStream && v.fragStart && v.fragType == OpText ==>
              HandlePacketAsWritten(v).raised &&
              (ValidUtf8(v.fragBuffer + v.frame.received) ==>
                 HandlePacket(v) == Stepped(FragmentsReset(Deliver(v, v.fragBuffer + v.frame.received)), false))
  {
    var a: seq<Byte> := [0x61];
    assert a[1..] == [];
    assert Utf8Prefix(a) by {
      assert SequencePrefix(a[..1]);
    }
  }

  // ---------------------------------------------------------------------------
  // One close frame at most

  /** How many close frames the queue holds. */
  function CloseCount(q: seq<Queued>): nat
    decreases |q|
  {
    if |q| == 0 then 0 else CloseCount(q[..|q| - 1]) + (if q[|q| - 1].opcode == OpClose then 1 else 0)
  }

  /** A frame queued after the others. */
  lemma CloseCountAppend(q: seq<Queued>, x: Queued)
    ensures CloseCount(q + [x]) == CloseCount(q) + (if x.opcode == OpClose then 1 else 0)
  {
    assert (q + [x])[..|q|] == q;
  }

  /** The client queues at most one close frame, and only once it counts as closed. */
  predicate CloseSentOnce(v: ClientView)
  {
    CloseCount(v.queue) <= 1 && (CloseCount(v.queue) == 1 ==> v.closed)
  }

  /** Handling a frame keeps it so. */
  lemma HandlePacketKeepsCloseSentOnce(v: ClientView)
    requires CloseSentOnce(v)
    ensures CloseSentOnce(HandlePacket(v).view)
  {
    var op := v.frame.opcode;
    if op == OpClose && KnownOpcode(op) {
      var reply := CloseReplyTo(v.frame.received);
      if !v.closed && 0 <= reply.status < 65536 && 2 + |reply.reason| < Limit64 {
        CloseCountAppend(v.queue, Queued(OpClose, Frame(OpClose, CloseBody(reply.status, reply.reason))));
      }
    } else if op == OpPing && v.frame.fin && |v.frame.received| <= 125 {
      CloseCountAppend(v.queue, Queued(OpPong, Frame(OpPong, v.frame.received)));
    }
  }

  /** Every byte keeps it so. */
  lemma StepKeepsCloseSentOnce(v: ClientView, b: Byte)
    requires CloseSentOnce(v)
    ensures CloseSentOnce(Step(v, b).view)
  {
    var p := Parse(v.frame, b);
    if p.Ready? {
      HandlePacketKeepsCloseSentOnce(v.(frame := p.f));
    }
  }

  /** Every chunk of bytes keeps it so. */
  lemma {:induction false} FeedKeepsCloseSentOnce(v: ClientView, bs: seq<Byte>)
    requires CloseSentOnce(v)
    ensures CloseSentOnce(Feed(v, bs).view)
    decreases |bs|
  {
    if |bs| > 0 {
      StepKeepsCloseSentOnce(v, bs[0]);
      var s := Step(v, bs[0]);
      if !s.raised {
        FeedKeepsCloseSentOnce(s.view, bs[1..]);
      }
    }
  }
}
