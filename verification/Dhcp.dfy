/** DHCP: walking the option area, section 2 of RFC 2132, and the replies that
    are read through it. */
module Dhcp {
  import opened Options
  import opened Bytes
  import opened Checksum

  const PAD: nat := 0
  const END: nat := 255
  const OP_REPLY: nat := 2
  const MSG_OFFER: nat := 2
  const MSG_ACK: nat := 5
  const OPTIONS_AT: nat := 240

  function Magic(): (r: Bytes)
    ensures |r| == 4
  {
    [Byte8(0x63), Byte8(0x82), Byte8(0x53), Byte8(0x63)]
  }

  /** What stands at i: padding, an option, or nothing more to read. */
  datatype Found = Padding | Has(code: nat, value: Bytes) | NoMore

  function FoundAt(opts: Bytes, i: nat): (r: Found)
    ensures r.Has? ==> i + 2 + |r.value| <= |opts|
    ensures !r.NoMore? ==> i < |opts|
  {
    if i >= |opts| then NoMore
    else if opts[i] as nat == PAD then Padding
    else if opts[i] as nat == END || i + 1 >= |opts| || i + 2 + opts[i + 1] as nat > |opts| then NoMore
    else Has(opts[i] as nat, opts[i + 2..i + 2 + opts[i + 1] as nat])
  }

  /** The value of the first option with this code from i on, or None at an end
      mark or where the area is cut short. */
  function OptionFrom(opts: Bytes, code: nat, i: nat): Option<Bytes>
    decreases |opts| - i
  {
    match FoundAt(opts, i)
    case NoMore => None
    case Padding => OptionFrom(opts, code, i + 1)
    case Has(c, value) => if c == code then Some(value) else OptionFrom(opts, code, i + 2 + |value|)
  }

  /** option, as the loop it is. */
  method FindOption(opts: Bytes, code: nat) returns (r: Option<Bytes>)
    ensures r == OptionFrom(opts, code, 0)
  {
    var i: nat := 0;
    while i < |opts|
      invariant OptionFrom(opts, code, 0) == OptionFrom(opts, code, i)
    {
      var c := opts[i] as nat;
      if c == PAD {
        i := i + 1;
      } else if c == END {
        return None;
      } else {
        if i + 1 >= |opts| {
          return None;
        }
        var len := opts[i + 1] as nat;
        if i + 2 + len > |opts| {
          return None;
        }
        if c == code {
          return Some(opts[i + 2..i + 2 + len]);
        }
        i := i + 2 + len;
      }
    }
    return None;
  }

  // ---- against a list of options ----

  datatype Item = Gap | Opt(code: nat, value: Bytes)

  predicate Proper(item: Item) {
    item.Opt? ==> PAD < item.code < END && |item.value| < 256
  }

  function Encode(items: seq<Item>): Bytes {
    if |items| == 0 then []
    else ItemBytes(items[0]) + Encode(items[1..])
  }

  function FirstValue(items: seq<Item>, code: nat): Option<Bytes> {
    if |items| == 0 then None
    else if items[0].Opt? && items[0].code == code then Some(items[0].value)
    else FirstValue(items[1..], code)
  }

  /** What may stand behind the options: nothing, or an end mark and anything. */
  predicate Tail(tail: Bytes) {
    |tail| == 0 || tail[0] as nat == END
  }

  function ItemBytes(item: Item): Bytes {
    match item case Gap => [NUL] case Opt(code, value) => [Byte8(code), Byte8(|value|)] + value
  }

  lemma FoundIs(before: Bytes, item: Item, rest: Bytes)
    requires Proper(item)
    ensures FoundAt(before + ItemBytes(item) + rest, |before|)
         == match item case Gap => Padding case Opt(c, value) => Has(c, value)
  {
    var opts, i := before + ItemBytes(item) + rest, |before|;
    assert opts[i] == ItemBytes(item)[0];
    if item.Opt? {
      assert opts[i + 1] == ItemBytes(item)[1];
      assert opts[i + 2..i + 2 + |item.value|] == item.value;
    }
  }

  lemma TailStops(before: Bytes, tail: Bytes)
    requires Tail(tail)
    ensures FoundAt(before + tail, |before|).NoMore?
  {
    assert |tail| > 0 ==> (before + tail)[|before|] == tail[0];
  }

  /** On every option list, padded anywhere, the walk gives the first value with
      the code. */
  lemma {:induction false} WalkIs(before: Bytes, items: seq<Item>, tail: Bytes, code: nat)
    requires Tail(tail) && forall k :: 0 <= k < |items| ==> Proper(items[k])
    ensures OptionFrom(before + Encode(items) + tail, code, |before|) == FirstValue(items, code)
    decreases |items|
  {
    hide FoundAt;
    if |items| == 0 {
      assert before + [] + tail == before + tail;
      TailStops(before, tail);
    } else {
      assert Proper(items[0]);
      var item, more := ItemBytes(items[0]), Encode(items[1..]);
      Regroup(before, item, more, tail);
      FoundIs(before, items[0], more + tail);
      WalkIs(before + item, items[1..], tail, code);
    }
  }

  lemma Regroup(a: Bytes, b: Bytes, c: Bytes, d: Bytes)
    ensures a + (b + c) + d == (a + b) + c + d == a + b + (c + d)
  {
  }

  // ---- replies ----

  function Be32(v: nat): (r: Bytes)
    ensures |r| == 4
  {
    [Byte8(v / 0x100_0000), Byte8(v / 0x1_0000), Byte8(v / 0x100), Byte8(v)]
  }

  predicate IsReply(payload: Bytes, xid: nat, kind: nat) {
    && |payload| >= OPTIONS_AT && payload[0] as nat == OP_REPLY
    && payload[4..8] == Be32(xid) && payload[236..240] == Magic()
    && var v := OptionFrom(payload[OPTIONS_AT..], 53, 0);
       v.Some? && |v.value| > 0 && v.value[0] as nat == kind
  }

  function ParseAck(payload: Bytes, xid: nat): Option<Bytes> {
    if IsReply(payload, xid, MSG_ACK) then Some(payload[16..20]) else None
  }

  datatype Offer = Offer(yiaddr: Bytes, serverId: Bytes)

  function ParseOffer(payload: Bytes, xid: nat): Option<Offer> {
    if !IsReply(payload, xid, MSG_OFFER) then None
    else
      var s := OptionFrom(payload[OPTIONS_AT..], 54, 0);
      Some(Offer(payload[16..20], if s.Some? && |s.value| >= 4 then s.value[..4] else Zeros(4)))
  }

  /** Four bytes, most significant first. */
  function Value32(b: Bytes): nat
    requires |b| == 4
  {
    ((b[0] as nat * 256 + b[1] as nat) * 256 + b[2] as nat) * 256 + b[3] as nat
  }

  lemma LastByte(a: nat, c: nat)
    requires c < 256
    ensures (a * 256 + c) / 256 == a && (a * 256 + c) % 256 == c
  {
  }

  lemma Shifts(v: nat)
    ensures v / 0x1_0000 == v / 256 / 256 && v / 0x100_0000 == v / 256 / 256 / 256
  {
  }

  lemma Be32Is(b: Bytes, v: nat)
    requires |b| == 4 && v < U32
    ensures b == Be32(v) <==> Value32(b) == v
  {
    Shifts(v);
    var v1 := v / 256;
    var v2 := v1 / 256;
    var v3 := v2 / 256;
    assert v == v1 * 256 + v % 256 && v1 == v2 * 256 + v1 % 256 && v2 == v3 * 256 + v2 % 256 && v3 < 256;
    var x3 := b[0] as nat;
    var x2 := x3 * 256 + b[1] as nat;
    var x1 := x2 * 256 + b[2] as nat;
    LastByte(x1, b[3] as nat);
    LastByte(x2, b[2] as nat);
    LastByte(x3, b[1] as nat);
    assert b == Be32(v) <==> b[3] as nat == v % 256 && b[2] as nat == v1 % 256 && b[1] as nat == v2 % 256 && x3 == v3;
  }

  /** The message is a reply to xid: op 2, the id and the magic cookie. */
  predicate Replies(fixed: Bytes, cookie: Bytes, xid: nat)
    requires |fixed| == 236 && |cookie| == 4
  {
    && fixed[0] as nat == 2 && Value32(fixed[4..8]) == xid
    && cookie[0] as nat == 0x63 && cookie[1] as nat == 0x82 && cookie[2] as nat == 0x53 && cookie[3] as nat == 0x63
  }

  /** Any fixed area, cookie and option list: an ACK or an OFFER is recognised if and
      only if the message is a reply to this id whose first message-type option says
      so; it gives the address of the fixed area and the first server option. */
  lemma ReplyIs(fixed: Bytes, cookie: Bytes, items: seq<Item>, tail: Bytes, xid: nat)
    requires |fixed| == 236 && |cookie| == 4 && xid < U32
    requires Tail(tail) && forall k :: 0 <= k < |items| ==> Proper(items[k])
    ensures var payload := fixed + cookie + Encode(items) + tail;
            var kind := FirstValue(items, 53);
            var server := FirstValue(items, 54);
            var typed := Replies(fixed, cookie, xid) && kind.Some? && |kind.value| > 0;
            && (ParseAck(payload, xid) == if typed && kind.value[0] as nat == 5 then Some(fixed[16..20]) else None)
            && (ParseOffer(payload, xid) == if typed && kind.value[0] as nat == 2
                  then Some(Offer(fixed[16..20],
                    if server.Some? && |server.value| >= 4 then server.value[..4] else Zeros(4))) else None)
  {
    hide OptionFrom, FirstValue, Be32, Encode, Value32;
    var payload := fixed + cookie + Encode(items) + tail;
    assert payload[OPTIONS_AT..] == [] + Encode(items) + tail;
    assert payload[4..8] == fixed[4..8] && payload[16..20] == fixed[16..20] && payload[236..240] == cookie;
    Be32Is(fixed[4..8], xid);
    CookieIs(cookie);
    WalkIs([], items, tail, 53);
    WalkIs([], items, tail, 54);
  }

  lemma CookieIs(c: Bytes)
    requires |c| == 4
    ensures c == Magic() <==>
      c[0] as nat == 0x63 && c[1] as nat == 0x82 && c[2] as nat == 0x53 && c[3] as nat == 0x63
  {
  }

  /** Less than a fixed area and a cookie is no reply. */
  lemma ShortRefused(payload: Bytes, xid: nat)
    requires |payload| < 240
    ensures ParseAck(payload, xid) == None && ParseOffer(payload, xid) == None
  {
  }

  // ---- requests ----

  const OP_REQUEST: nat := 1
  const BROADCAST: nat := 0x8000
  const MSG_REQUEST: nat := 3
  const REQUEST_LEN: nat := 256

  /** The fixed area of a request from this client: Ethernet, broadcast flag. */
  function RequestFixed(xid: nat, mac: Bytes): (r: Bytes)
    requires |mac| == 6
    ensures |r| == 236
  {
    [Byte8(OP_REQUEST), Byte8(1), Byte8(6), NUL] + Be32(xid) + [NUL, NUL] + Be16(BROADCAST) + Zeros(16) + mac
      + Zeros(202)
  }

  /** The option area of a REQUEST. */
  function RequestItems(requestedIp: Bytes, serverId: Bytes): seq<Item> {
    [Opt(53, [Byte8(MSG_REQUEST)]), Opt(50, requestedIp), Opt(54, serverId)]
  }

  function RequestOptions(requestedIp: Bytes, serverId: Bytes): (r: Bytes)
    requires |requestedIp| == 4 && |serverId| == 4
    ensures |r| == 16
  {
    [Byte8(53), Byte8(1), Byte8(MSG_REQUEST)] + ([Byte8(50), Byte8(4)] + requestedIp)
      + ([Byte8(54), Byte8(4)] + serverId) + [Byte8(END)]
  }

  function RequestBytes(xid: nat, mac: Bytes, requestedIp: Bytes, serverId: Bytes): (r: Bytes)
    requires |mac| == 6 && |requestedIp| == 4 && |serverId| == 4
    ensures |r| == REQUEST_LEN
  {
    RequestFixed(xid, mac) + Magic() + RequestOptions(requestedIp, serverId)
  }

  /** build_request: zero the payload, then write its fields. */
  method BuildRequest(xid: nat, mac: Bytes, requestedIp: Bytes, serverId: Bytes, out: array<Byte>) returns (n: nat)
    requires |mac| == 6 && |requestedIp| == 4 && |serverId| == 4 && out.Length >= REQUEST_LEN
    modifies out
    ensures n == REQUEST_LEN && out[..] == Put(old(out[..]), 0, RequestBytes(xid, mac, requestedIp, serverId))
  {
    hide Put, Be32, RequestOptions;
    ghost var was, z := out[..], Zeros(REQUEST_LEN);
    var opts := RequestOptions(requestedIp, serverId);
    ghost var p1 := Put(z, 0, [Byte8(OP_REQUEST), Byte8(1), Byte8(6)]);
    ghost var p2 := Put(p1, 4, Be32(xid));
    ghost var p3 := Put(p2, 10, Be16(BROADCAST));
    ghost var p4 := Put(p3, 28, mac);
    ghost var p5 := Put(p4, 236, Magic());
    PutAgain(was, 0, z, 0, [Byte8(OP_REQUEST), Byte8(1), Byte8(6)]);
    PutAgain(was, 0, p1, 4, Be32(xid));
    PutAgain(was, 0, p2, 10, Be16(BROADCAST));
    PutAgain(was, 0, p3, 28, mac);
    PutAgain(was, 0, p4, 236, Magic());
    PutAgain(was, 0, p5, 240, opts);
    FieldsInPlace(xid, mac, opts);
    CopyInto(out, 0, Zeros(REQUEST_LEN));
    CopyInto(out, 0, [Byte8(OP_REQUEST), Byte8(1), Byte8(6)]);
    CopyInto(out, 4, Be32(xid));
    CopyInto(out, 10, Be16(BROADCAST));
    CopyInto(out, 28, mac);
    CopyInto(out, 236, Magic());
    CopyInto(out, 240, opts);
    return REQUEST_LEN;
  }

  /** The fields written over zeros make the payload. */
  lemma FieldsInPlace(xid: nat, mac: Bytes, opts: Bytes)
    requires |mac| == 6 && |opts| == 16
    ensures Put(Put(Put(Put(Put(Put(Zeros(REQUEST_LEN), 0, [Byte8(OP_REQUEST), Byte8(1), Byte8(6)]), 4, Be32(xid)),
                10, Be16(BROADCAST)), 28, mac), 236, Magic()), 240, opts)
         == RequestFixed(xid, mac) + Magic() + opts
  {
    hide Be32, Be16, Byte8, Magic, Put, Zeros;
    var h: Bytes := [Byte8(OP_REQUEST), Byte8(1), Byte8(6)];
    var x, f, m := Be32(xid), Be16(BROADCAST), Magic();
    FewZeros();
    assert [] + Zeros(256) == Zeros(256) && [] + Zeros(0) + h == h;
    PutZeros([], 256, 0, h);
    var a1 := h;
    PutZeros(a1, 253, 1, x);
    var a2 := a1 + Zeros(1) + x;
    PutZeros(a2, 248, 2, f);
    var a3 := a2 + Zeros(2) + f;
    PutZeros(a3, 244, 16, mac);
    var a4 := a3 + Zeros(16) + mac;
    PutZeros(a4, 222, 202, m);
    var a5 := a4 + Zeros(202) + m;
    PutZeros(a5, 16, 0, opts);
    assert a5 + Zeros(0) + opts + Zeros(0) == a5 + opts;
    assert h + [NUL] == [Byte8(OP_REQUEST), Byte8(1), Byte8(6), NUL];
  }

  lemma FewZeros()
    ensures Zeros(0) == [] && Zeros(1) == [NUL] && Zeros(2) == [NUL, NUL]
  {
  }

  /** Writing into the zeros behind a. */
  lemma PutZeros(a: Bytes, n: nat, k: nat, b: Bytes)
    requires k + |b| <= n
    ensures Put(a + Zeros(n), |a| + k, b) == a + Zeros(k) + b + Zeros(n - k - |b|)
  {
  }

  lemma OptionsAreItems(requestedIp: Bytes, serverId: Bytes)
    requires |requestedIp| == 4 && |serverId| == 4
    ensures RequestOptions(requestedIp, serverId) == Encode(RequestItems(requestedIp, serverId)) + [Byte8(END)]
  {
    var items := RequestItems(requestedIp, serverId);
    var b, c := items[1..], items[1..][1..];
    assert b == [Opt(50, requestedIp), Opt(54, serverId)] && c == [Opt(54, serverId)] && c[1..] == [];
    assert Encode(c) == ItemBytes(c[0]) + [];
    assert Encode(b) == ItemBytes(b[0]) + Encode(c);
    assert Encode(items) == ItemBytes(items[0]) + Encode(b);
  }

  lemma FixedZeros(xid: nat, mac: Bytes)
    requires |mac| == 6
    ensures var f := RequestFixed(xid, mac);
            && f[..4] == [Byte8(1), Byte8(1), Byte8(6), NUL] && f[8..10] == Zeros(2) && f[12..28] == Zeros(16)
            && f[34..236] == Zeros(202)
  {
    hide Be32, Be16;
    FewZeros();
  }

  /** A server that walks the request finds the message type, the address asked
      for and the server it is meant for; and no client takes it for a reply. */
  lemma RequestReads(xid: nat, mac: Bytes, requestedIp: Bytes, serverId: Bytes)
    requires |mac| == 6 && |requestedIp| == 4 && |serverId| == 4
    ensures var p := RequestBytes(xid, mac, requestedIp, serverId);
            && p[..4] == [Byte8(1), Byte8(1), Byte8(6), NUL] && p[4..8] == Be32(xid) && p[28..34] == mac
            && p[236..240] == Magic() && ReadBe16(p, 10) == BROADCAST
            && p[8..10] == Zeros(2) && p[12..28] == Zeros(16) && p[34..236] == Zeros(202)
            && OptionFrom(p[OPTIONS_AT..], 53, 0) == Some([Byte8(MSG_REQUEST)])
            && OptionFrom(p[OPTIONS_AT..], 50, 0) == Some(requestedIp)
            && OptionFrom(p[OPTIONS_AT..], 54, 0) == Some(serverId)
            && forall x: nat, kind: nat :: !IsReply(p, x, kind)
  {
    hide OptionFrom, Encode, Be32, RequestOptions;
    var p := RequestBytes(xid, mac, requestedIp, serverId);
    var fixed := RequestFixed(xid, mac);
    assert p[..236] == fixed;
    assert p[4..8] == fixed[4..8] == Be32(xid) && p[28..34] == fixed[28..34] == mac;
    FixedZeros(xid, mac);
    assert p[8..10] == fixed[8..10] && p[12..28] == fixed[12..28] && p[34..236] == fixed[34..236];
    assert p[..4] == fixed[..4];
    OptionsAreItems(requestedIp, serverId);
    var items := RequestItems(requestedIp, serverId);
    var tail := [Byte8(END)];
    assert p[OPTIONS_AT..] == [] + Encode(items) + tail;
    assert items[1..] == [Opt(50, requestedIp), Opt(54, serverId)] && items[1..][1..] == [Opt(54, serverId)];
    assert FirstValue(items, 54) == FirstValue(items[1..], 54) == FirstValue(items[1..][1..], 54) == Some(serverId);
    WalkIs([], items, tail, 53);
    WalkIs([], items, tail, 50);
    WalkIs([], items, tail, 54);
  }
}
