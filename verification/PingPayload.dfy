/** What a ping's packet carries and how the worker reads a reply back. */
module PingPayload {
  import opened Basics
  import opened Bytes
  import opened IcmpPackets

  const EXTRA_PROTO_SIZE := 12
  const ICMP_MINLEN := 8
  const ICMP_ECHOREPLY: byte := 0

  /** Thread number, task timestamp and ping index, side by side. */
  function Payload(tid: nat, timestamp: nat, index: nat): (s: seq<byte>)
    ensures |s| == EXTRA_PROTO_SIZE
  {
    LE(tid, 2) + LE(timestamp, 8) + LE(index, 2)
  }

  /** `Ping::start` up to the packet: the three fields are stored one by one in a buffer. */
  method BuildRequest(pid: nat, tid: nat, timestamp: nat, index: nat) returns (packet: IcmpPacket)
    requires pid < 0x1_0000 && tid < 0x1_0000 && timestamp < Pow256(8) && index < 0x1_0000
    ensures packet.Valid() && fresh(packet) && fresh(packet.buf)
    ensures packet.buf[..2] == [8, 0] && packet.buf.Length == 21
    ensures packet.buf[4..] == LE(pid, 2) + LE(0, 2) + Payload(tid, timestamp, index) + [0]
    ensures packet.buf[4..6] == LE(pid, 2) && packet.buf[8..10] == LE(tid, 2)
    ensures packet.buf[10..18] == LE(timestamp, 8) && packet.buf[18..20] == LE(index, 2)
    ensures OnesSum(Words(packet.buf[..])) == 0xFFFF
  {
    var srcBuf := new byte[EXTRA_PROTO_SIZE];
    FillPayload(srcBuf, tid, timestamp, index);
    packet := new IcmpPacket(8, 0, pid, 0, srcBuf[..]);
    assert packet.buf[4..] == LE(pid, 2) + LE(0, 2) + Payload(tid, timestamp, index) + [0];
    Fields(packet.buf[..], LE(pid, 2), LE(0, 2), LE(tid, 2), LE(timestamp, 8), LE(index, 2));
  }

  lemma Fields(p: seq<byte>, id: seq<byte>, sequence: seq<byte>, tid: seq<byte>, timestamp: seq<byte>, index: seq<byte>)
    requires |p| == 21 && |id| == |sequence| == |tid| == |index| == 2 && |timestamp| == 8
    requires p[4..] == id + sequence + (tid + timestamp + index) + [0]
    ensures p[4..6] == id && p[8..10] == tid && p[10..18] == timestamp && p[18..20] == index
  {
    assert p[4..6] == p[4..][0..2] && p[8..10] == p[4..][4..6];
    assert p[10..18] == p[4..][6..14] && p[18..20] == p[4..][14..16];
  }

  method FillPayload(srcBuf: array<byte>, tid: nat, timestamp: nat, index: nat)
    requires srcBuf.Length == EXTRA_PROTO_SIZE
    modifies srcBuf
    ensures srcBuf[..] == Payload(tid, timestamp, index)
  {
    Store(srcBuf, 0, tid, 2);
    Store(srcBuf, 2, timestamp, 8);
    Store(srcBuf, 10, index, 2);
    assert srcBuf[..] == srcBuf[..2] + srcBuf[2..10] + srcBuf[10..];
  }

  method Store(a: array<byte>, at: nat, v: nat, width: nat)
    requires at + width <= a.Length
    modifies a
    ensures a[at..at + width] == LE(v, width)
    ensures a[..at] == old(a[..at]) && a[at + width..] == old(a[at + width..])
  {
    var i, rest: nat := 0, v;
    while i < width
      invariant 0 <= i <= width
      invariant a[at..at + i] + LE(rest, width - i) == LE(v, width)
      invariant a[..at] == old(a[..at]) && a[at + width..] == old(a[at + width..])
    {
      assert LE(rest, width - i) == [rest % 256] + LE(rest / 256, width - i - 1);
      a[at + i] := rest % 256;
      assert a[at..at + (i + 1)] == a[at..at + i] + [a[at + i]];
      rest := rest / 256;
      i := i + 1;
    }
  }

  // ---- Reading a reply ---------------------------------------------------------------------------

  datatype Reply = Reply(timestamp: nat, sequence: nat, index: nat)

  /** The bytes of a 16- or 64-bit field read in place. */
  function Load(p: seq<byte>, at: nat, width: nat): (v: nat)
    requires at + width <= |p|
    ensures v < Pow256(width)
  {
    FromLE(p[at..at + width])
  }

  /** The decoding half of `socketReadHandler`, on the bytes received: None when they are dropped. */
  function Decode(recv: seq<byte>, tid: nat, pid: nat): Option<Reply> {
    var hlen := if recv == [] then 0 else recv[0] as int % 16 * 4;
    if hlen < 20 || |recv| < hlen + ICMP_MINLEN + EXTRA_PROTO_SIZE then None
    else if Load(recv, hlen + ICMP_MINLEN, 2) != tid then None
    else if recv[hlen] != ICMP_ECHOREPLY then None
    else if Load(recv, hlen + 4, 2) != pid then None
    else
      Some(Reply(Load(recv, hlen + ICMP_MINLEN + 2, 8), Load(recv, hlen + 6, 2),
                 Load(recv, hlen + ICMP_MINLEN + 10, 2)))
  }

  /** An IP header whose length field tells its length: 20 to 60 bytes. */
  predicate IpHeader(ip: seq<byte>) {
    20 <= |ip| && |ip| == ip[0] as int % 16 * 4
  }

  /** An echo reply behind an IP header: any code and checksum, the identifier, sequence and data
      of the request sent back, anything after. */
  function EchoReply(ip: seq<byte>, head: seq<byte>, pid: nat, sequence: nat, data: seq<byte>,
                     more: seq<byte>): seq<byte> {
    ip + [ICMP_ECHOREPLY] + head + LE(pid, 2) + LE(sequence, 2) + data + more
  }

  /** Where the fields of a reply lie. */
  lemma Slices(ip: seq<byte>, kind: byte, head: seq<byte>, id: seq<byte>, sequence: seq<byte>,
               tid: seq<byte>, timestamp: seq<byte>, index: seq<byte>, more: seq<byte>)
    requires |head| == 3 && |id| == |sequence| == |tid| == |index| == 2 && |timestamp| == 8
    ensures var p := ip + [kind] + head + id + sequence + (tid + timestamp + index) + more;
      var h := |ip|;
      && |p| >= h + 20 && p[..h] == ip && p[h] == kind
      && p[h + 4..h + 6] == id && p[h + 6..h + 8] == sequence
      && p[h + 8..h + 10] == tid && p[h + 10..h + 18] == timestamp && p[h + 18..h + 20] == index
  {
  }

  lemma LoadField(p: seq<byte>, at: nat, v: nat, width: nat)
    requires at + width <= |p| && p[at..at + width] == LE(v, width) && v < Pow256(width)
    ensures Load(p, at, width) == v
  {
    ReadBack(v, width);
  }

  lemma Widths()
    ensures Pow256(2) == 0x1_0000
  {
    assert Pow256(1) == 256 * Pow256(0);
  }

  lemma ReplyFields(p: seq<byte>, h: nat, pid: nat, sequence: nat, tid: nat, timestamp: nat, index: nat)
    requires h + 20 <= |p| && p[h + 4..h + 6] == LE(pid, 2) && p[h + 6..h + 8] == LE(sequence, 2)
    requires p[h + 8..h + 10] == LE(tid, 2) && p[h + 10..h + 18] == LE(timestamp, 8)
    requires p[h + 18..h + 20] == LE(index, 2)
    requires pid < 0x1_0000 && sequence < 0x1_0000 && tid < 0x1_0000 && index < 0x1_0000 && timestamp < Pow256(8)
    ensures Load(p, h + 4, 2) == pid && Load(p, h + 6, 2) == sequence && Load(p, h + 8, 2) == tid
    ensures Load(p, h + 10, 8) == timestamp && Load(p, h + 18, 2) == index
  {
    Widths();
    LoadField(p, h + 4, pid, 2);
    LoadField(p, h + 6, sequence, 2);
    LoadField(p, h + 8, tid, 2);
    LoadField(p, h + 10, timestamp, 8);
    LoadField(p, h + 18, index, 2);
  }

  /** Round trip: a reply to what was sent is decoded to exactly what was sent, behind an IP header
      of any length, by the thread and process that sent it and by no other. */
  lemma ReplyReadsBack(ip: seq<byte>, head: seq<byte>, pid: nat, sequence: nat,
                       tid: nat, timestamp: nat, index: nat, more: seq<byte>, myTid: nat, myPid: nat)
    requires IpHeader(ip) && |head| == 3
    requires pid < 0x1_0000 && sequence < 0x1_0000 && tid < 0x1_0000 && index < 0x1_0000 && timestamp < Pow256(8)
    ensures Decode(EchoReply(ip, head, pid, sequence, Payload(tid, timestamp, index), more), myTid, myPid)
         == if tid == myTid && pid == myPid then Some(Reply(timestamp, sequence, index)) else None
  {
    var p := EchoReply(ip, head, pid, sequence, Payload(tid, timestamp, index), more);
    Slices(ip, ICMP_ECHOREPLY, head, LE(pid, 2), LE(sequence, 2), LE(tid, 2), LE(timestamp, 8), LE(index, 2), more);
    assert p[0] == p[..|ip|][0];
    ReplyFields(p, |ip|, pid, sequence, tid, timestamp, index);
  }

  /** The other way round: what the decoder accepts is an echo reply of that shape, carrying those
      fields. */
  lemma AcceptedIsReply(recv: seq<byte>, tid: nat, pid: nat)
    requires Decode(recv, tid, pid).Some?
    ensures var hlen := recv[0] as int % 16 * 4;
      var r := Decode(recv, tid, pid).value;
      && recv != [] && hlen + 20 <= |recv| && IpHeader(recv[..hlen]) && recv[hlen] == 0
      && recv == EchoReply(recv[..hlen], recv[hlen + 1..hlen + 4], pid, r.sequence,
                           Payload(tid, r.timestamp, r.index), recv[hlen + 20..])
  {
    var hlen := recv[0] as int % 16 * 4;
    Field(recv, hlen + 4, 2);
    Field(recv, hlen + 6, 2);
    Field(recv, hlen + 8, 2);
    Field(recv, hlen + 10, 8);
    Field(recv, hlen + 18, 2);
    Pieces(recv, hlen);
  }

  lemma Field(recv: seq<byte>, at: nat, width: nat)
    requires at + width <= |recv|
    ensures LE(Load(recv, at, width), width) == recv[at..at + width]
  {
    WriteBack(recv[at..at + width]);
  }

  lemma Pieces(recv: seq<byte>, h: nat)
    requires h + 20 <= |recv|
    ensures recv == recv[..h] + [recv[h]] + recv[h + 1..h + 4] + recv[h + 4..h + 6] + recv[h + 6..h + 8]
                  + (recv[h + 8..h + 10] + recv[h + 10..h + 18] + recv[h + 18..h + 20]) + recv[h + 20..]
  {
  }

  /** Types by RFC 792: a request of this service, of type 8, is never taken for a reply, of type 0, when
      it comes back to its sender; nor is any other message that is no echo reply. */
  lemma OnlyReplies(ip: seq<byte>, message: seq<byte>, tid: nat, pid: nat)
    requires IpHeader(ip) && message != [] && message[0] != 0
    ensures Decode(ip + message, tid, pid) == None
  {
    assert (ip + message)[0] == ip[0] && (ip + message)[|ip|] == message[0];
  }
}
