/** The frame builders, writing into a caller's buffer header by header. */
module FrameBuilder {
  import opened Options
  import opened Bytes
  import opened Checksum
  import opened Frame

  /** Fill the zeroed checksum field of the message b that lies at off. */
  method FillChecksum(a: array<Byte>, off: nat, len: nat, field: nat, ghost was: Bytes, ghost b: Bytes)
    requires |b| == len <= MAX_BYTES && off + len <= a.Length && field + 2 <= len && |was| == a.Length
    requires a[..] == Put(was, off, b)
    modifies a
    ensures a[..] == Put(was, off, Filled(b, field))
  {
    hide Put, ChecksumOf, Be16;
    PutSame(was, off, b);
    assert a[off..off + len] == Slice(a[..], off, len);
    var c := ComputeChecksum(a[off..off + len]);
    PutAgain(was, off, b, field, Be16(c));
    CopyInto(a, off + field, Be16(c));
  }

  /** build_header into out at off. */
  method BuildHeader(src: Bytes, dst: Bytes, proto: nat, payloadLen: nat, ident: nat, out: array<Byte>, off: nat)
    requires Ip(src) && Ip(dst) && off + IPV4_HDR_LEN <= out.Length
    modifies out
    ensures out[..] == Put(old(out[..]), off, Header(src, dst, proto, payloadLen, ident))
  {
    hide Put, Filled, BareHeader;
    ghost var was := out[..];
    var bare := BareHeader(src, dst, proto, payloadLen, ident);
    CopyInto(out, off, bare);
    FillChecksum(out, off, IPV4_HDR_LEN, 10, was, bare);
  }

  /** The Ethernet and IPv4 headers of a frame. */
  method BuildHeaders(srcMac: Bytes, dstMac: Bytes, srcIp: Bytes, dstIp: Bytes, proto: nat, len: nat, ident: nat,
                      frame: array<Byte>)
    requires Mac(srcMac) && Mac(dstMac) && Ip(srcIp) && Ip(dstIp) && frame.Length >= 34
    modifies frame
    ensures frame[..] == Put(old(frame[..]), 0, EthHeader(dstMac, srcMac) + Header(srcIp, dstIp, proto, len, ident))
  {
    hide Put, Header;
    ghost var was := frame[..];
    CopyInto(frame, 0, dstMac);
    PutPut(was, 0, dstMac, srcMac);
    CopyInto(frame, 6, srcMac);
    PutPut(was, 0, dstMac + srcMac, Be16(ETHERTYPE_IPV4));
    CopyInto(frame, 12, Be16(ETHERTYPE_IPV4));
    PutPut(was, 0, EthHeader(dstMac, srcMac), Header(srcIp, dstIp, proto, len, ident));
    BuildHeader(srcIp, dstIp, proto, len, ident, frame, ETH_HDR_LEN);
  }

  /** udp::build: the frame at the start of the buffer, the rest untouched. */
  method BuildUdp(srcMac: Bytes, dstMac: Bytes, srcIp: Bytes, dstIp: Bytes, srcPort: nat, dstPort: nat, ident: nat,
                  payload: Bytes, frame: array<Byte>)
    returns (n: nat)
    requires Mac(srcMac) && Mac(dstMac) && Ip(srcIp) && Ip(dstIp) && frame.Length >= 42 + |payload|
    modifies frame
    ensures n == 42 + |payload|
    ensures frame[..]
         == Put(old(frame[..]), 0, UdpFrame(srcMac, dstMac, srcIp, dstIp, srcPort, dstPort, ident, payload))
  {
    hide Put, Header, EthHeader, UdpHeader;
    ghost var was := frame[..];
    var udpLen := UDP_HDR_LEN + |payload|;
    BuildHeaders(srcMac, dstMac, srcIp, dstIp, PROTO_UDP, udpLen, ident, frame);
    ghost var h := EthHeader(dstMac, srcMac) + Header(srcIp, dstIp, PROTO_UDP, udpLen, ident);
    PutPut(was, 0, h, UdpHeader(srcPort, dstPort, udpLen));
    CopyInto(frame, 34, UdpHeader(srcPort, dstPort, udpLen));
    PutPut(was, 0, h + UdpHeader(srcPort, dstPort, udpLen), payload);
    CopyInto(frame, 42, payload);
    return 42 + |payload|;
  }

  /** The ICMP message b behind the headers h, with its checksum filled in. */
  method BuildMessage(frame: array<Byte>, b: Bytes, ghost was: Bytes, ghost h: Bytes)
    requires |was| == frame.Length && |h| == 34 && 34 + |b| <= frame.Length && 8 <= |b| <= MAX_BYTES
    requires frame[..] == Put(was, 0, h)
    modifies frame
    ensures frame[..] == Put(was, 0, h + Filled(b, 2))
  {
    hide Put, Filled;
    CopyInto(frame, 34, b);
    FillChecksum(frame, 34, |b|, 2, Put(was, 0, h), b);
    PutPut(was, 0, h, Filled(b, 2));
  }

  method BuildEchoRequest(srcMac: Bytes, dstMac: Bytes, srcIp: Bytes, dstIp: Bytes, ident: nat, seqno: nat,
                          payload: Bytes, frame: array<Byte>)
    returns (n: nat)
    requires Mac(srcMac) && Mac(dstMac) && Ip(srcIp) && Ip(dstIp) && frame.Length >= 42 + |payload|
    requires ICMP_HDR_LEN + |payload| <= MAX_BYTES
    modifies frame
    ensures n == 42 + |payload|
    ensures frame[..]
         == Put(old(frame[..]), 0, EchoFrame(srcMac, dstMac, srcIp, dstIp, ident, ECHO_REQUEST, ident, seqno, payload))
  {
    hide Put, Filled, Header, EthHeader, BareEcho;
    ghost var was := frame[..];
    var len := ICMP_HDR_LEN + |payload|;
    BuildHeaders(srcMac, dstMac, srcIp, dstIp, PROTO_ICMP, len, ident, frame);
    ghost var h := EthHeader(dstMac, srcMac) + Header(srcIp, dstIp, PROTO_ICMP, len, ident);
    BuildMessage(frame, BareEcho(ECHO_REQUEST, ident, seqno, payload), was, h);
    return 34 + len;
  }

  /** build_echo_reply: refused exactly when the frame carries no ICMP message. */
  method BuildEchoReply(request: Bytes, out: array<Byte>) returns (r: Option<nat>)
    requires out.Length >= |request| && |request| <= MAX_BYTES
    modifies out
    ensures r.Some? <==> CarriesIcmp(request)
    ensures r.Some? ==>
      r.value == |EchoReplyTo(request).value| <= out.Length
        && out[..] == Put(old(out[..]), 0, EchoReplyTo(request).value)
    ensures r.None? ==> out[..] == old(out[..])
  {
    hide Put, Filled, Header, EthHeader;
    var c := PayloadAt(request, PROTO_ICMP);
    CarriesExact(request, PROTO_ICMP);
    if c.None? {
      return None;
    }
    ghost var was := out[..];
    var len := |request| - c.value;
    var srcIp, dstIp := request[30..34], request[26..30];
    BuildHeaders(request[0..6], request[6..12], srcIp, dstIp, PROTO_ICMP, len, 0, out);
    ghost var h := EthHeader(request[6..12], request[0..6]) + Header(srcIp, dstIp, PROTO_ICMP, len, 0);
    var msg := [Byte8(ECHO_REPLY), NUL, NUL, NUL] + request[c.value + 4..];
    BuildMessage(out, msg, was, h);
    return Some(34 + len);
  }
}
