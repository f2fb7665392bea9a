/** MQTT packet framing as the stub broker writes and reads it: the Remaining Length field of
    section 2.2.3 of MQTT 3.1.1 and the fixed header around it. */
module MqttFraming {
  import opened Numbers

  type Bytes = seq<byte>

  const MAX_REMAINING: nat := 268_435_455

  /** What a read leaves in the connection goes with its outcome. */
  datatype Read<+T> = Got(value: T, rest: Bytes) | Short | Malformed(left: Bytes)

  datatype Packet = Packet(kind: byte, flags: byte, payload: Bytes)

  // ---------------------------------------------------------------- remaining length

  /** Seven bits and the continuation bit: on bytes, b & 0x7F is b % 128 and b & 0x80 tests b >= 128. */
  function Digit(n: nat, more: bool): byte
    requires n < 128
  {
    if more then n + 128 else n
  }

  function EncodeLength(n: nat): (e: Bytes)
    ensures |e| > 0
  {
    if n < 128 then [Digit(n, false)] else [Digit(n % 128, true)] + EncodeLength(n / 128)
  }

  /** At most k bytes: seven bits each, least significant first, the top bit saying more follow. */
  function DecodeUpTo(s: Bytes, k: nat): (r: Read<nat>)
    ensures r.Got? ==> |r.rest| < |s|
    decreases k
  {
    if k == 0 then Malformed(s)
    else if s == [] then Short
    else
      var low := s[0] % 128;
      if s[0] < 128 then Got(low, s[1..])
      else match DecodeUpTo(s[1..], k - 1)
           case Got(v, rest) => Got(low + 128 * v, rest)
           case other => other
  }

  function DecodeLength(s: Bytes): Read<nat> { DecodeUpTo(s, 4) }

  function Pow128(k: nat): nat { if k == 0 then 1 else 128 * Pow128(k - 1) }

  lemma EncodedParts(n: nat, tail: Bytes)
    ensures var s := EncodeLength(n) + tail;
            if n < 128 then s[0] == n && s[1..] == tail
            else s[0] == n % 128 + 128 && s[0] % 128 == n % 128 && s[1..] == EncodeLength(n / 128) + tail
  {
  }

  /** k bytes are enough exactly for the numbers below 128^k; what follows them is left alone. */
  lemma {:induction false} DecodeEncoded(n: nat, k: nat, tail: Bytes)
    requires k > 0
    ensures n < Pow128(k) ==> DecodeUpTo(EncodeLength(n) + tail, k) == Got(n, tail)
    ensures n >= Pow128(k) ==> DecodeUpTo(EncodeLength(n) + tail, k).Malformed?
    decreases k
  {
    EncodedParts(n, tail);
    PowAtLeast(k - 1);
    if n >= 128 {
      if k == 1 {
        assert Pow128(1) == 128 * Pow128(0);
      } else {
        DecodeEncoded(n / 128, k - 1, tail);
      }
    }
  }

  lemma PowAtLeast(k: nat)
    ensures Pow128(k) >= 1
  {
  }

  lemma FourBytes()
    ensures Pow128(4) == MAX_REMAINING + 1
  {
    assert Pow128(0) == 1 && Pow128(1) == 128 && Pow128(2) == 16_384 && Pow128(3) == 2_097_152;
  }

  /** The round trip works exactly up to 268 435 455; beyond it the reader reports a malformed length. */
  lemma LengthRoundTrip(n: nat, tail: Bytes)
    ensures DecodeLength(EncodeLength(n) + tail) == Got(n, tail) <==> n <= 268_435_455
    ensures n > 268_435_455 ==> DecodeLength(EncodeLength(n) + tail).Malformed?
  {
    FourBytes();
    DecodeEncoded(n, 4, tail);
  }

  /** The size boundaries of table 2.4. */
  lemma {:induction false} EncodedSize(n: nat, k: nat)
    requires k > 0
    ensures |EncodeLength(n)| <= k <==> n < Pow128(k)
    decreases k
  {
    if n >= 128 {
      if k == 1 {
        assert Pow128(0) == 1 && Pow128(1) == 128;
      } else {
        EncodedSize(n / 128, k - 1);
      }
    } else {
      PowAtLeast(k - 1);
    }
  }

  /** No byte string that decodes to n is shorter than its encoding, and none of that length differs from it. */
  lemma {:induction false} EncodingIsMinimal(s: Bytes, k: nat)
    requires DecodeUpTo(s, k).Got?
    ensures var r := DecodeUpTo(s, k);
            && |s| - |r.rest| >= |EncodeLength(r.value)|
            && (|s| - |r.rest| == |EncodeLength(r.value)| ==> s == EncodeLength(r.value) + r.rest)
    decreases k
  {
    var r := DecodeUpTo(s, k);
    var low := s[0] % 128;
    if s[0] >= 128 {
      EncodingIsMinimal(s[1..], k - 1);
      var v := DecodeUpTo(s[1..], k - 1).value;
      assert r.value == low + 128 * v;
      if v > 0 {
        assert r.value % 128 == low && r.value / 128 == v;
        assert |s| - |r.rest| == |EncodeLength(r.value)| ==> s == [s[0]] + s[1..];
      }
    }
  }

  /** What the bytes are worth: seven bits each, the first the least significant. */
  function Worth(s: Bytes): nat { if s == [] then 0 else s[0] % 128 + 128 * Worth(s[1..]) }

  /** The encoding is worth n, and every byte but the last says that more follow. */
  lemma {:induction false} EncodedBytes(n: nat)
    ensures Worth(EncodeLength(n)) == n
    ensures forall i :: 0 <= i < |EncodeLength(n)| ==> (EncodeLength(n)[i] >= 128 <==> i + 1 < |EncodeLength(n)|)
  {
    if n >= 128 {
      EncodedBytes(n / 128);
      var e, rest := EncodeLength(n), EncodeLength(n / 128);
      assert e[1..] == rest && forall i :: 0 < i < |e| ==> e[i] == rest[i - 1];
    }
  }

  /** A length that is cut short reads as short. */
  lemma {:induction false} CutLengthIsShort(n: nat, i: nat, k: nat)
    requires i < |EncodeLength(n)| && n < Pow128(k) && k > 0
    ensures DecodeUpTo(EncodeLength(n)[..i], k).Short?
    decreases i
  {
    if i > 0 {
      var s := EncodeLength(n)[..i];
      assert Pow128(1) == 128 * Pow128(0);
      assert n >= 128 && EncodeLength(n)[1..] == EncodeLength(n / 128);
      assert s[1..] == EncodeLength(n / 128)[..i - 1];
      CutLengthIsShort(n / 128, i - 1, k - 1);
    }
  }

  // ---------------------------------------------------------------- packets

  /** Bitwise or of two numbers of `bits` bits. */
  function Or(a: nat, b: nat, bits: nat): nat {
    if bits == 0 then 0
    else 2 * Or(a / 2, b / 2, bits - 1) + (if a % 2 == 1 || b % 2 == 1 then 1 else 0)
  }

  lemma {:induction false} OrFits(a: nat, b: nat, bits: nat)
    ensures Or(a, b, bits) < Pow2(bits)
    ensures a < Pow2(bits) ==> Or(a, 0, bits) == a
  {
    if bits > 0 { OrFits(a / 2, b / 2, bits - 1); }
  }

  lemma OrBounds(a: nat, b: nat)
    ensures Or(a, b, 4) < 16
    ensures a < 16 ==> Or(a, 0, 4) == a
  {
    assert Pow2(4) == 16 by { assert Pow2(2) == 4; }
    OrFits(a, b, 4);
  }

  /** kind << 4 | flags on bytes: the shift loses the high half of kind, and the high half of
      flags lands on the kind. */
  function Header(kind: byte, flags: byte): byte {
    OrBounds(kind % 16, flags / 16);
    16 * Or(kind % 16, flags / 16, 4) + flags % 16
  }

  function Frame(p: Packet): Bytes {
    [Header(p.kind, p.flags)] + EncodeLength(|p.payload|) + p.payload
  }

  function Parse(s: Bytes): (r: Read<Packet>)
    ensures r.Got? ==> |r.rest| < |s|
  {
    if s == [] then Short
    else match DecodeLength(s[1..])
         case Short => Short
         case Malformed(left) => Malformed(left)
         case Got(n, body) =>
           if |body| < n then Short
           else Got(Packet(s[0] / 16, s[0] % 16, body[..n]), body[n..])
  }

  predicate Framable(p: Packet) { p.kind < 16 && p.flags < 16 && |p.payload| <= MAX_REMAINING }

  lemma HeaderBits(kind: byte, flags: byte)
    ensures Header(kind, flags) / 16 == kind && Header(kind, flags) % 16 == flags <==> kind < 16 && flags < 16
  {
    OrBounds(kind % 16, flags / 16);
    OrBounds(kind % 16, 0);
  }

  lemma ParseFrame(p: Packet, tail: Bytes)
    ensures var h := Header(p.kind, p.flags);
            if |p.payload| <= MAX_REMAINING then Parse(Frame(p) + tail) == Got(Packet(h / 16, h % 16, p.payload), tail)
            else Parse(Frame(p) + tail).Malformed?
  {
    LengthRoundTrip(|p.payload|, p.payload + tail);
    FrameParts(Header(p.kind, p.flags), EncodeLength(|p.payload|), p.payload, tail);
  }

  lemma FrameParts(header: byte, length: Bytes, payload: Bytes, tail: Bytes)
    ensures var s := [header] + length + payload + tail;
            s[0] == header && s[1..] == length + (payload + tail)
    ensures (payload + tail)[..|payload|] == payload && (payload + tail)[|payload|..] == tail
  {
  }

  /** A packet followed by anything is read back, and nothing more consumed, exactly when it is framable. */
  lemma PacketRoundTrip(p: Packet, tail: Bytes)
    ensures Parse(Frame(p) + tail) == Got(p, tail) <==> Framable(p)
  {
    ParseFrame(p, tail);
    HeaderBits(p.kind, p.flags);
  }

  lemma CutInLength(header: byte, n: nat, i: nat)
    requires n <= MAX_REMAINING && i < |EncodeLength(n)|
    ensures Parse([header] + EncodeLength(n)[..i]).Short?
  {
    FourBytes();
    assert ([header] + EncodeLength(n)[..i])[1..] == EncodeLength(n)[..i];
    CutLengthIsShort(n, i, 4);
  }

  lemma CutInPayload(header: byte, n: nat, body: Bytes)
    requires |body| < n <= MAX_REMAINING
    ensures Parse([header] + EncodeLength(n) + body).Short?
  {
    assert ([header] + EncodeLength(n) + body)[1..] == EncodeLength(n) + body;
    LengthRoundTrip(n, body);
  }

  /** A connection that closes before the end of a packet gives none. */
  lemma CutFrameIsShort(p: Packet, i: nat)
    requires |p.payload| <= 268_435_455 && i < |Frame(p)|
    ensures Parse(Frame(p)[..i]).Short?
  {
    var header, length := Header(p.kind, p.flags), EncodeLength(|p.payload|);
    if 0 < i <= |length| {
      assert Frame(p)[..i] == [header] + length[..i - 1];
      CutInLength(header, |p.payload|, i - 1);
    } else if i > 0 {
      assert Frame(p)[..i] == [header] + length + p.payload[..i - 1 - |length|];
      CutInPayload(header, |p.payload|, p.payload[..i - 1 - |length|]);
    }
  }

  function FrameAll(packets: seq<Packet>): Bytes {
    if packets == [] then [] else Frame(packets[0]) + FrameAll(packets[1..])
  }

  /** Reads packets until the connection is empty or a read fails. */
  function ParseAll(s: Bytes): seq<Packet>
    decreases |s|
  {
    if s == [] then []
    else match Parse(s)
         case Got(p, rest) => [p] + ParseAll(rest)
         case _ => []
  }

  /** A list of packets survives the wire exactly when every one of them is framable. */
  lemma {:induction false} StreamRoundTrip(packets: seq<Packet>)
    ensures ParseAll(FrameAll(packets)) == packets <==> forall i :: 0 <= i < |packets| ==> Framable(packets[i])
  {
    if packets != [] {
      var rest := FrameAll(packets[1..]);
      ParseFrame(packets[0], rest);
      PacketRoundTrip(packets[0], rest);
      StreamRoundTrip(packets[1..]);
      FirstAndRest(packets);
      if Framable(packets[0]) {
        assert ParseAll(Frame(packets[0]) + rest) == [packets[0]] + ParseAll(rest);
      } else {
        HeaderBits(packets[0].kind, packets[0].flags);
      }
    }
  }

  lemma FirstAndRest(packets: seq<Packet>)
    requires packets != []
    ensures (forall i :: 0 <= i < |packets| ==> Framable(packets[i]))
            <==> Framable(packets[0]) && forall i :: 0 <= i < |packets[1..]| ==> Framable(packets[1..][i])
    ensures forall tail :: [packets[0]] + tail == packets <==> tail == packets[1..]
  {
    assert forall i :: 0 < i < |packets| ==> packets[i] == packets[1..][i - 1];
    forall tail ensures [packets[0]] + tail == packets <==> tail == packets[1..] {
      assert ([packets[0]] + tail)[1..] == tail;
    }
  }

  // ---------------------------------------------------------------- the code

  class Conn {
    var inbox: Bytes
    var outbox: Bytes

    /** Reads exactly n bytes; a connection that ends early is drained. */
    method ReadFull(n: nat) returns (ok: bool, data: Bytes)
      modifies this`inbox
      ensures ok <==> n <= |old(inbox)|
      ensures if ok then data == old(inbox)[..n] && inbox == old(inbox)[n..] else inbox == []
    {
      ok, data := n <= |inbox|, [];
      if ok {
        data, inbox := inbox[..n], inbox[n..];
      } else {
        inbox := [];
      }
    }
  }

  method EncodeRemainingLength(length: nat) returns (encoded: Bytes)
    ensures encoded == EncodeLength(length)
  {
    encoded := [];
    var left := length;
    while true
      invariant encoded + EncodeLength(left) == EncodeLength(length)
      decreases left
    {
      var b: byte := left % 128;
      ghost var was := left;
      left := left / 128;
      if left > 0 {
        b := Digit(b, true);
      }
      encoded := encoded + [b];
      if left == 0 {
        return;
      }
      assert EncodeLength(was) == [b] + EncodeLength(left);
    }
  }

  /** How the rest of the field contributes once `value` has been read at weight `weight`. */
  function Scaled(value: nat, weight: nat, r: Read<nat>): Read<nat> {
    match r
    case Got(v, rest) => Got(value + weight * v, rest)
    case other => other
  }

  lemma Distribute(weight: nat, low: nat, v: nat)
    ensures weight * (low + 128 * v) == low * weight + weight * 128 * v
  {
  }

  lemma ScaledStep(value: nat, weight: nat, s: Bytes, k: nat)
    requires s != [] && k > 0
    ensures var value' := value + s[0] % 128 * weight;
            Scaled(value, weight, DecodeUpTo(s, k))
            == if s[0] < 128 then Got(value', s[1..]) else Scaled(value', weight * 128, DecodeUpTo(s[1..], k - 1))
  {
    var low := s[0] % 128;
    match DecodeUpTo(s[1..], k - 1)
    case Got(v, _) => Distribute(weight, low, v);
    case _ =>
  }

  method ReadByte(conn: Conn) returns (ok: bool, b: byte)
    modifies conn`inbox
    ensures ok <==> old(conn.inbox) != []
    ensures if ok then b == old(conn.inbox)[0] && conn.inbox == old(conn.inbox)[1..] else conn.inbox == []
  {
    var data;
    ok, data := conn.ReadFull(1);
    b := if ok then data[0] else 0;
  }

  method ReadRemainingLength(conn: Conn) returns (r: Read<nat>)
    modifies conn`inbox
    ensures r == DecodeLength(old(conn.inbox))
    ensures conn.inbox == match r case Got(_, rest) => rest case Short => [] case Malformed(left) => left
  {
    var value: nat, multiplier: nat := 0, 1;
    ghost var whole := DecodeLength(conn.inbox);
    for i := 0 to 4
      invariant Scaled(value, multiplier, DecodeUpTo(conn.inbox, 4 - i)) == whole
    {
      ghost var s := conn.inbox;
      var ok, b := ReadByte(conn);
      if !ok {
        return Short;
      }
      ScaledStep(value, multiplier, s, 4 - i);
      value := value + b % 128 * multiplier;
      if b < 128 {
        return Got(value, conn.inbox);
      }
      multiplier := multiplier * 128;
    }
    return Malformed(conn.inbox);
  }

  method WritePacket(conn: Conn, kind: byte, flags: byte, payload: Bytes)
    modifies conn`outbox
    ensures conn.outbox == old(conn.outbox) + Frame(Packet(kind, flags, payload))
  {
    var packet := [Header(kind, flags)];
    var length := EncodeRemainingLength(|payload|);
    packet := packet + length;
    packet := packet + payload;
    conn.outbox := conn.outbox + packet;
  }

  method ReadPacket(conn: Conn) returns (r: Read<Packet>)
    modifies conn`inbox
    ensures r == Parse(old(conn.inbox))
    ensures conn.inbox == match r case Got(_, rest) => rest case Short => [] case Malformed(left) => left
  {
    var ok, header := conn.ReadFull(1);
    if !ok {
      return Short;
    }
    assert old(conn.inbox)[1..] == conn.inbox;
    var remaining := ReadRemainingLength(conn);
    match remaining {
      case Short => return Short;
      case Malformed(left) => return Malformed(left);
      case Got(n, body) =>
        var payload: Bytes := [];
        if n > 0 {
          ok, payload := conn.ReadFull(n);
          if !ok {
            return Short;
          }
        }
        return Got(Packet(header[0] / 16, header[0] % 16, payload), conn.inbox);
    }
  }
}
