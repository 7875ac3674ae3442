/** Ethernet frames: the IPv4 header, UDP datagrams and ICMP echo messages, built
    in place and read back. */
module Frame {
  import opened Options
  import opened Bytes
  import opened Checksum

  const ETH_HDR_LEN: nat := 14
  const IPV4_HDR_LEN: nat := 20
  const UDP_HDR_LEN: nat := 8
  const ICMP_HDR_LEN: nat := 8
  const ETHERTYPE_IPV4: nat := 0x0800
  const PROTO_UDP: nat := 17
  const PROTO_ICMP: nat := 1
  const ECHO_REQUEST: nat := 8
  const ECHO_REPLY: nat := 0

  predicate Mac(b: Bytes) { |b| == 6 }
  predicate Ip(b: Bytes) { |b| == 4 }

  // ---- headers ----

  function EthHeader(dst: Bytes, src: Bytes): (r: Bytes)
    requires Mac(dst) && Mac(src)
    ensures |r| == ETH_HDR_LEN
  {
    dst + src + Be16(ETHERTYPE_IPV4)
  }

  /** The header with its checksum field still zero. */
  function BareHeader(src: Bytes, dst: Bytes, proto: nat, payloadLen: nat, ident: nat): (r: Bytes)
    requires Ip(src) && Ip(dst)
    ensures |r| == IPV4_HDR_LEN && r[10] == NUL && r[11] == NUL
  {
    [Byte8(0x45), NUL] + Be16((IPV4_HDR_LEN + payloadLen) % U16) + Be16(ident)
      + [NUL, NUL, Byte8(64), Byte8(proto), NUL, NUL] + src + dst
  }

  function Filled(b: Bytes, off: nat): (r: Bytes)
    requires off + 2 <= |b|
    ensures |r| == |b|
  {
    Put(b, off, Be16(ChecksumOf(b)))
  }

  function Header(src: Bytes, dst: Bytes, proto: nat, payloadLen: nat, ident: nat): (r: Bytes)
    requires Ip(src) && Ip(dst)
    ensures |r| == IPV4_HDR_LEN
  {
    Filled(BareHeader(src, dst, proto, payloadLen, ident), 10)
  }

  /** The header verifies, and its other fields stand. */
  lemma HeaderIs(src: Bytes, dst: Bytes, proto: nat, payloadLen: nat, ident: nat)
    requires Ip(src) && Ip(dst) && proto < 256
    ensures var h := Header(src, dst, proto, payloadLen, ident);
            && ChecksumOf(h) == 0
            && h[0] as nat == 0x45 && h[1] == NUL && h[9] as nat == proto && h[12..16] == src && h[16..20] == dst
            && ReadBe16(h, 2) == (IPV4_HDR_LEN + payloadLen) % U16 && h[4..6] == Be16(ident) && h[6..8] == [NUL, NUL]
            && h[8] as nat == 64
  {
    hide ChecksumOf;
    Be16RoundTrip((IPV4_HDR_LEN + payloadLen) % U16);
    var bare := BareHeader(src, dst, proto, payloadLen, ident);
    ChecksumVerifies(bare, 10);
    var h := Header(src, dst, proto, payloadLen, ident);
    assert h[..10] == bare[..10] && h[12..] == bare[12..];
    SubSlice(h, 0, 10, 4, 6);
    SubSlice(h, 0, 10, 6, 8);
    SubSlice(h, 12, 20, 0, 4);
    SubSlice(h, 12, 20, 4, 8);
    BareFields(src, dst, proto, payloadLen, ident);
    assert h[0..10] == h[..10] && bare[0..10] == bare[..10] && h[12..20] == h[12..] && bare[12..20] == bare[12..];
    SubSlice(bare, 0, 10, 4, 6);
    SubSlice(bare, 0, 10, 6, 8);
    SubSlice(bare, 12, 20, 0, 4);
    SubSlice(bare, 12, 20, 4, 8);
  }

  lemma BareFields(src: Bytes, dst: Bytes, proto: nat, payloadLen: nat, ident: nat)
    requires Ip(src) && Ip(dst)
    ensures var b := BareHeader(src, dst, proto, payloadLen, ident);
            b[4..6] == Be16(ident) && b[6..8] == [NUL, NUL] && b[12..16] == src && b[16..20] == dst
  {
    hide Be16;
  }

  // ---- UDP ----

  function UdpHeader(srcPort: nat, dstPort: nat, udpLen: nat): (r: Bytes)
    ensures |r| == UDP_HDR_LEN
  {
    Be16(srcPort) + Be16(dstPort) + Be16(udpLen % U16) + [NUL, NUL]
  }

  function UdpFrame(srcMac: Bytes, dstMac: Bytes, srcIp: Bytes, dstIp: Bytes, srcPort: nat, dstPort: nat, ident: nat,
                    payload: Bytes): Bytes
    requires Mac(srcMac) && Mac(dstMac) && Ip(srcIp) && Ip(dstIp)
  {
    var udpLen := UDP_HDR_LEN + |payload|;
    EthHeader(dstMac, srcMac) + Header(srcIp, dstIp, PROTO_UDP, udpLen, ident) + UdpHeader(srcPort, dstPort, udpLen)
      + payload
  }

  /** The length of the IPv4 header a frame claims. */
  function Ihl(frame: Bytes): nat
    requires |frame| > ETH_HDR_LEN
  {
    frame[ETH_HDR_LEN] as nat % 16 * 4
  }

  /** Where the IPv4 payload of a frame of this protocol starts, if it has room
      for eight bytes. */
  function PayloadAt(frame: Bytes, proto: nat): (r: Option<nat>)
    ensures r.Some? ==> r.value + 8 <= |frame|
  {
    if |frame| < ETH_HDR_LEN + IPV4_HDR_LEN + 8 then None
    else if ReadBe16(frame, 12) != ETHERTYPE_IPV4 then None
    else if Ihl(frame) < IPV4_HDR_LEN || |frame| < ETH_HDR_LEN + Ihl(frame) + 8 then None
    else if frame[ETH_HDR_LEN + 9] as nat != proto then None
    else Some(ETH_HDR_LEN + Ihl(frame))
  }

  function UdpParse(frame: Bytes, wantPort: nat): Option<Bytes> {
    match PayloadAt(frame, PROTO_UDP)
    case None => None
    case Some(u) =>
      if ReadBe16(frame, u + 2) != wantPort then None
      else
        var len := ReadBe16(frame, u + 4);
        if len < UDP_HDR_LEN || u + len > |frame| then None else Some(frame[u + UDP_HDR_LEN..u + len])
  }

  /** Behind a built header the payload starts at byte 34. */
  lemma BuiltPayloadAt(srcMac: Bytes, dstMac: Bytes, srcIp: Bytes, dstIp: Bytes, proto: nat, len: nat, ident: nat,
                       rest: Bytes)
    requires Mac(srcMac) && Mac(dstMac) && Ip(srcIp) && Ip(dstIp) && proto < 256 && |rest| >= 8
    ensures var frame := EthHeader(dstMac, srcMac) + Header(srcIp, dstIp, proto, len, ident) + rest;
            && PayloadAt(frame, proto) == Some(34)
            && frame[..6] == dstMac && frame[6..12] == srcMac && frame[26..30] == srcIp && frame[30..34] == dstIp
            && frame[34..] == rest
  {
    hide Header;
    HeaderIs(srcIp, dstIp, proto, len, ident);
    var e, h := EthHeader(dstMac, srcMac), Header(srcIp, dstIp, proto, len, ident);
    var frame := e + h + rest;
    assert frame[12] == e[12] && frame[13] == e[13] && frame[14] == h[0] && frame[23] == h[9];
    assert ReadBe16(frame, 12) == ETHERTYPE_IPV4;
    assert frame[26..30] == h[12..16] && frame[30..34] == h[16..20];
  }

  lemma ReadsBe16(frame: Bytes, off: nat, v: nat)
    requires off + 2 <= |frame| && v < U16 && frame[off..off + 2] == Be16(v)
    ensures ReadBe16(frame, off) == v
  {
    assert frame[off] == frame[off..off + 2][0] && frame[off + 1] == frame[off..off + 2][1];
    Be16RoundTrip(v);
  }

  lemma Behind(frame: Bytes, rest: Bytes, o: nat, n: nat)
    requires |frame| >= 34 && frame[34..] == rest && o + n <= |rest|
    ensures frame[34 + o..34 + o + n] == rest[o..o + n]
  {
    assert frame[34..][o..o + n] == frame[34 + o..34 + o + n];
  }

  lemma UdpHeaderIs(srcPort: nat, dstPort: nat, udpLen: nat, rest: Bytes)
    ensures (UdpHeader(srcPort, dstPort, udpLen) + rest)[..2] == Be16(srcPort)
    ensures (UdpHeader(srcPort, dstPort, udpLen) + rest)[2..4] == Be16(dstPort)
    ensures (UdpHeader(srcPort, dstPort, udpLen) + rest)[4..6] == Be16(udpLen % U16)
    ensures (UdpHeader(srcPort, dstPort, udpLen) + rest)[6..8] == [NUL, NUL]
  {
    hide Be16;
  }

  /** A built datagram, however padded, gives its payload to the port it was sent
      to and to no other, exactly when its length fits 16 bits. */
  lemma UdpRoundTrip(srcMac: Bytes, dstMac: Bytes, srcIp: Bytes, dstIp: Bytes, srcPort: nat, dstPort: nat, ident: nat,
                     payload: Bytes, pad: Bytes, port: nat)
    requires Mac(srcMac) && Mac(dstMac) && Ip(srcIp) && Ip(dstIp) && srcPort < U16 && dstPort < U16
    ensures var r := UdpParse(UdpFrame(srcMac, dstMac, srcIp, dstIp, srcPort, dstPort, ident, payload) + pad, port);
            && (port != dstPort ==> r == None)
            && (port == dstPort ==> (r == Some(payload) <==> UDP_HDR_LEN + |payload| < U16))
  {
    hide Header, EthHeader, PayloadAt, Be16, UdpHeader, ReadBe16;
    var udpLen := UDP_HDR_LEN + |payload|;
    var u := UdpHeader(srcPort, dstPort, udpLen);
    var rest := u + payload + pad;
    var frame := UdpFrame(srcMac, dstMac, srcIp, dstIp, srcPort, dstPort, ident, payload) + pad;
    assert frame == EthHeader(dstMac, srcMac) + Header(srcIp, dstIp, PROTO_UDP, udpLen, ident) + rest;
    BuiltPayloadAt(srcMac, dstMac, srcIp, dstIp, PROTO_UDP, udpLen, ident, rest);
    UdpHeaderIs(srcPort, dstPort, udpLen, payload + pad);
    assert rest == u + (payload + pad);
    Behind(frame, rest, 2, 2);
    Behind(frame, rest, 4, 2);
    ReadsBe16(frame, 36, dstPort);
    ReadsBe16(frame, 38, udpLen % U16);
    if udpLen < U16 {
      Behind(frame, rest, 8, |payload|);
      assert rest[8..8 + |payload|] == payload;
    }
  }

  // ---- ICMP echo ----

  function BareEcho(kind: nat, ident: nat, seqno: nat, payload: Bytes): (r: Bytes)
    ensures |r| == ICMP_HDR_LEN + |payload| && r[2] == NUL && r[3] == NUL
  {
    [Byte8(kind), NUL, NUL, NUL] + Be16(ident) + Be16(seqno) + payload
  }

  function Echo(kind: nat, ident: nat, seqno: nat, payload: Bytes): (r: Bytes)
    ensures |r| == ICMP_HDR_LEN + |payload|
  {
    Filled(BareEcho(kind, ident, seqno, payload), 2)
  }

  function EchoFrame(srcMac: Bytes, dstMac: Bytes, srcIp: Bytes, dstIp: Bytes, ipIdent: nat, kind: nat, ident: nat,
                     seqno: nat, payload: Bytes): Bytes
    requires Mac(srcMac) && Mac(dstMac) && Ip(srcIp) && Ip(dstIp)
  {
    EthHeader(dstMac, srcMac) + Header(srcIp, dstIp, PROTO_ICMP, ICMP_HDR_LEN + |payload|, ipIdent)
      + Echo(kind, ident, seqno, payload)
  }

  predicate ParseEchoReply(frame: Bytes, ident: nat, seqno: nat) {
    match PayloadAt(frame, PROTO_ICMP)
    case None => false
    case Some(c) => frame[c] as nat == ECHO_REPLY && ReadBe16(frame, c + 4) == ident && ReadBe16(frame, c + 6) == seqno
  }

  predicate IsEchoRequest(frame: Bytes, ourIp: Bytes) {
    match PayloadAt(frame, PROTO_ICMP)
    case None => false
    case Some(c) => frame[ETH_HDR_LEN + 16..ETH_HDR_LEN + 20] == ourIp && frame[c] as nat == ECHO_REQUEST
  }

  /** build_echo_reply: addresses swapped, type 0, the rest of the message kept.
      The type of the message it answers is not looked at. */
  function EchoReplyTo(request: Bytes): Option<Bytes> {
    match PayloadAt(request, PROTO_ICMP)
    case None => None
    case Some(c) =>
      var msg := [Byte8(ECHO_REPLY), NUL, NUL, NUL] + request[c + 4..];
      Some(EthHeader(request[6..12], request[0..6])
           + Header(request[30..34], request[26..30], PROTO_ICMP, |request| - c, 0) + Filled(msg, 2))
  }

  /** An echo message verifies, and its other fields stand. */
  lemma EchoIs(kind: nat, ident: nat, seqno: nat, payload: Bytes)
    requires kind < 256
    ensures var m := Echo(kind, ident, seqno, payload);
            && ChecksumOf(m) == 0
            && m[0] as nat == kind && m[1] == NUL && m[4..6] == Be16(ident) && m[6..8] == Be16(seqno)
            && m[4..] == Be16(ident) + Be16(seqno) + payload
  {
    hide ChecksumOf, Be16;
    var bare := BareEcho(kind, ident, seqno, payload);
    ChecksumVerifies(bare, 2);
    var m := Echo(kind, ident, seqno, payload);
    assert m[4..] == bare[4..] == Be16(ident) + Be16(seqno) + payload;
    assert m[4..6] == m[4..][..2] && m[6..8] == m[4..][2..4];
  }

  /** The fields of a built echo frame, however padded. */
  lemma EchoFields(srcMac: Bytes, dstMac: Bytes, srcIp: Bytes, dstIp: Bytes, ipIdent: nat, kind: nat, ident: nat,
                   seqno: nat, payload: Bytes, pad: Bytes)
    requires Mac(srcMac) && Mac(dstMac) && Ip(srcIp) && Ip(dstIp) && kind < 256 && ident < U16 && seqno < U16
    ensures var frame := EchoFrame(srcMac, dstMac, srcIp, dstIp, ipIdent, kind, ident, seqno, payload) + pad;
            && PayloadAt(frame, PROTO_ICMP) == Some(34) && |frame| == 42 + |payload| + |pad|
            && frame[..6] == dstMac && frame[6..12] == srcMac && frame[26..30] == srcIp && frame[30..34] == dstIp
            && frame[34] as nat == kind && ReadBe16(frame, 38) == ident && ReadBe16(frame, 40) == seqno
            && frame[38..] == Be16(ident) + Be16(seqno) + payload + pad
  {
    hide Header, EthHeader, PayloadAt, Be16, Echo, ReadBe16;
    var m := Echo(kind, ident, seqno, payload);
    var rest := m + pad;
    var frame := EchoFrame(srcMac, dstMac, srcIp, dstIp, ipIdent, kind, ident, seqno, payload) + pad;
    assert frame == EthHeader(dstMac, srcMac) + Header(srcIp, dstIp, PROTO_ICMP, ICMP_HDR_LEN + |payload|, ipIdent)
      + rest;
    BuiltPayloadAt(srcMac, dstMac, srcIp, dstIp, PROTO_ICMP, ICMP_HDR_LEN + |payload|, ipIdent, rest);
    EchoIs(kind, ident, seqno, payload);
    Behind(frame, rest, 4, 2);
    Behind(frame, rest, 6, 2);
    assert rest[4..6] == m[4..6] && rest[6..8] == m[6..8];
    ReadsBe16(frame, 38, ident);
    ReadsBe16(frame, 40, seqno);
    Behind(frame, rest, 4, |rest| - 4);
    assert rest[4..] == m[4..] + pad;
    assert frame[34] == frame[34..][0];
  }

  /** A reply is accepted for its own identifier and sequence number only. */
  lemma EchoAccepted(srcMac: Bytes, dstMac: Bytes, srcIp: Bytes, dstIp: Bytes, ipIdent: nat, kind: nat, ident: nat,
                     seqno: nat, payload: Bytes, pad: Bytes)
    requires Mac(srcMac) && Mac(dstMac) && Ip(srcIp) && Ip(dstIp) && kind < 256 && ident < U16 && seqno < U16
    ensures var frame := EchoFrame(srcMac, dstMac, srcIp, dstIp, ipIdent, kind, ident, seqno, payload) + pad;
            && (forall i: nat, q: nat :: ParseEchoReply(frame, i, q) <==>
               kind == ECHO_REPLY && i == ident && q == seqno)
            && (forall ip: Bytes :: IsEchoRequest(frame, ip) <==> kind == ECHO_REQUEST && ip == dstIp)
  {
    hide EchoFrame, PayloadAt, ReadBe16;
    EchoFields(srcMac, dstMac, srcIp, dstIp, ipIdent, kind, ident, seqno, payload, pad);
  }

  /** The reply to a built request has both address pairs swapped and the same
      identifier, sequence number and payload, padding included. */
  lemma ReplyToRequest(srcMac: Bytes, dstMac: Bytes, srcIp: Bytes, dstIp: Bytes, ipIdent: nat, ident: nat, seqno: nat,
                       payload: Bytes, pad: Bytes)
    requires Mac(srcMac) && Mac(dstMac) && Ip(srcIp) && Ip(dstIp) && ident < U16 && seqno < U16
    ensures EchoReplyTo(EchoFrame(srcMac, dstMac, srcIp, dstIp, ipIdent, ECHO_REQUEST, ident, seqno, payload) + pad)
         == Some(EchoFrame(dstMac, srcMac, dstIp, srcIp, 0, ECHO_REPLY, ident, seqno, payload + pad))
  {
    hide Header, EthHeader, PayloadAt, ReadBe16, Filled, Be16;
    var frame := EchoFrame(srcMac, dstMac, srcIp, dstIp, ipIdent, ECHO_REQUEST, ident, seqno, payload) + pad;
    EchoFields(srcMac, dstMac, srcIp, dstIp, ipIdent, ECHO_REQUEST, ident, seqno, payload, pad);
    assert frame[0..6] == frame[..6];
    assert [Byte8(ECHO_REPLY), NUL, NUL, NUL] + frame[38..] == BareEcho(ECHO_REPLY, ident, seqno, payload + pad);
  }

  // ---- which frames are answered, and how ----

  /** The frame carries an ICMP message: its length, EtherType, protocol and header
      length say so. */
  predicate CarriesIcmp(frame: Bytes) {
    Carries(frame, 1)
  }

  /** An IPv4 packet of this protocol with room for eight bytes behind its header. */
  predicate Carries(frame: Bytes, proto: nat) {
    && |frame| >= 42 && frame[12..14] == [Byte8(8), Byte8(0)] && frame[23] as nat == proto
    && frame[14] as nat % 16 >= 5 && |frame| >= 22 + frame[14] as nat % 16 * 4
  }

  /** The first byte of its message is that of an echo request. */
  predicate CarriesRequest(frame: Bytes) {
    CarriesIcmp(frame) && frame[14 + frame[14] as nat % 16 * 4] as nat == ECHO_REQUEST
  }

  lemma CarriesExact(frame: Bytes, proto: nat)
    ensures Carries(frame, proto) <==> PayloadAt(frame, proto).Some?
    ensures Carries(frame, proto) ==> PayloadAt(frame, proto) == Some(14 + frame[14] as nat % 16 * 4)
  {
    if |frame| >= 42 {
      var t := frame[12..14];
      assert t[0] == frame[12] && t[1] == frame[13];
      assert ReadBe16(frame, 12) == ETHERTYPE_IPV4 <==> frame[12] as nat == 8 && frame[13] as nat == 0;
      assert t == [Byte8(8), Byte8(0)] <==> frame[12] == Byte8(8) && frame[13] == Byte8(0);
    }
  }

  /** An answer is given exactly to the frames that carry an ICMP message, of
      whatever type. So the comment on build_echo_reply, which promises None for
      what is no echo request, is met exactly by the requests and the refused. */
  lemma AnsweredExact(frame: Bytes)
    ensures EchoReplyTo(frame).Some? <==> CarriesIcmp(frame)
    ensures (EchoReplyTo(frame).Some? <==> CarriesRequest(frame)) <==> CarriesRequest(frame) || !CarriesIcmp(frame)
  {
    CarriesExact(frame, PROTO_ICMP);
  }

  /** A frame of any other type is answered against the comment: for every type
      byte there is one. */
  lemma AnyTypeAnswered(srcMac: Bytes, dstMac: Bytes, srcIp: Bytes, dstIp: Bytes, ipIdent: nat, kind: nat, ident: nat,
                        seqno: nat, payload: Bytes)
    requires Mac(srcMac) && Mac(dstMac) && Ip(srcIp) && Ip(dstIp) && kind < 256 && ident < U16 && seqno < U16
    ensures var frame := EchoFrame(srcMac, dstMac, srcIp, dstIp, ipIdent, kind, ident, seqno, payload);
            EchoReplyTo(frame).Some? && (CarriesRequest(frame) <==> kind == ECHO_REQUEST)
  {
    hide EchoFrame, EchoReplyTo, PayloadAt, Carries;
    var frame := EchoFrame(srcMac, dstMac, srcIp, dstIp, ipIdent, kind, ident, seqno, payload);
    EchoFields(srcMac, dstMac, srcIp, dstIp, ipIdent, kind, ident, seqno, payload, []);
    assert frame + [] == frame;
    CarriesExact(frame, PROTO_ICMP);
    AnsweredExact(frame);
  }

  /** A message with its first four bytes replaced and its checksum filled in. */
  lemma ReplyMessage(rest: Bytes)
    requires |rest| >= 4
    ensures var m := Filled([Byte8(ECHO_REPLY), NUL, NUL, NUL] + rest, 2);
            |m| == 4 + |rest| && ChecksumOf(m) == 0 && m[0] as nat == ECHO_REPLY && m[1] == NUL && m[4..] == rest
  {
    hide ChecksumOf;
    var bare := [Byte8(ECHO_REPLY), NUL, NUL, NUL] + rest;
    ChecksumVerifies(bare, 2);
    assert Filled(bare, 2)[4..] == bare[4..] == rest;
  }

  /** The reply to any frame that is answered, headers with options included: both
      checksums verify, both address pairs are swapped, the message keeps all but
      its first four bytes (so its code only if that is 0), and the reply is accepted for exactly the identifier
      and the sequence number of the frame. */
  lemma ReplyIs(frame: Bytes)
    requires CarriesIcmp(frame)
    ensures EchoReplyTo(frame).Some?
    ensures var r, c := EchoReplyTo(frame).value, 14 + frame[14] as nat % 16 * 4;
            && |r| == 34 + |frame| - c
            && ChecksumOf(r[14..34]) == 0 && ChecksumOf(r[34..]) == 0
            && r[..6] == frame[6..12] && r[6..12] == frame[..6] && r[26..30] == frame[30..34]
            && r[30..34] == frame[26..30]
            && r[34] as nat == ECHO_REPLY && r[35] == NUL && r[38..] == frame[c + 4..]
            && (r[35] == frame[c + 1] <==> frame[c + 1] == NUL)
            && forall i: nat, q: nat :: ParseEchoReply(r, i, q) <==>
               i == ReadBe16(frame, c + 4) && q == ReadBe16(frame, c + 6)
  {
    hide Header, PayloadAt, Filled, ChecksumOf, EthHeader, Word;
    CarriesExact(frame, PROTO_ICMP);
    var r, c := EchoReplyTo(frame).value, 14 + frame[14] as nat % 16 * 4;
    var src, dst, len := frame[30..34], frame[26..30], |frame| - c;
    var msg := Filled([Byte8(ECHO_REPLY), NUL, NUL, NUL] + frame[c + 4..], 2);
    var h := Header(src, dst, PROTO_ICMP, len, 0);
    var e := EthHeader(frame[6..12], frame[0..6]);
    ReplyMessage(frame[c + 4..]);
    BuiltPayloadAt(frame[0..6], frame[6..12], src, dst, PROTO_ICMP, len, 0, msg);
    HeaderIs(src, dst, PROTO_ICMP, len, 0);
    assert r == e + h + msg;
    assert r[14..34] == h && r[34..] == msg && frame[0..6] == frame[..6];
    assert r[34] == r[34..][0] && r[35] == r[34..][1];
    assert r[38..] == r[34..][4..];
    assert r[38] == r[38..][0] && r[39] == r[38..][1] && r[40] == r[38..][2] && r[41] == r[38..][3];
    assert frame[c + 4] == frame[c + 4..][0] && frame[c + 5] == frame[c + 4..][1] && frame[c + 6] == frame[c + 4..][2]
      && frame[c + 7] == frame[c + 4..][3];
  }

  // ---- which frames are read, and how ----

  /** Any frame at all gives a payload to a port exactly when it is IPv4 and UDP, is
      sent to that port, and holds as many bytes as its UDP length says; and then
      gives those behind the UDP header. */
  lemma UdpExact(frame: Bytes, port: nat, payload: Bytes)
    ensures UdpParse(frame, port) == Some(payload) <==>
      && Carries(frame, 17)
      && var u := 14 + frame[14] as nat % 16 * 4;
         && frame[u + 2] as nat * 256 + frame[u + 3] as nat == port
         && var len := frame[u + 4] as nat * 256 + frame[u + 5] as nat;
            8 <= len <= |frame| - u && payload == frame[u + 8..u + len]
  {
    hide PayloadAt, Carries;
    CarriesExact(frame, PROTO_UDP);
    CarriesRoom(frame, PROTO_UDP);
  }

  lemma CarriesRoom(frame: Bytes, proto: nat)
    ensures Carries(frame, proto) ==> |frame| >= 22 + frame[14] as nat % 16 * 4
  {
  }

  /** Any frame at all is taken for the reply to an echo, or for a request to an
      address, exactly when its bytes say so. */
  lemma EchoExact(frame: Bytes, ident: nat, seqno: nat, ip: Bytes)
    ensures ParseEchoReply(frame, ident, seqno) <==>
      && CarriesIcmp(frame)
      && var c := 14 + frame[14] as nat % 16 * 4;
         && frame[c] as nat == 0 && frame[c + 4] as nat * 256 + frame[c + 5] as nat == ident
         && frame[c + 6] as nat * 256 + frame[c + 7] as nat == seqno
    ensures IsEchoRequest(frame, ip) <==>
      CarriesIcmp(frame) && frame[14 + frame[14] as nat % 16 * 4] as nat == 8 && frame[30..34] == ip
  {
    hide PayloadAt, Carries;
    CarriesExact(frame, PROTO_ICMP);
    CarriesRoom(frame, PROTO_ICMP);
  }
}
