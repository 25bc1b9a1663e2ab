/** The cheap capture prefilter against the full decoder: a frame it rejects would not
    have been shown after decoding, except in the one direction stated exactly below.
    What lies behind IPv6, fragments and tunnels is any function of the bytes. */
module Prefilter {
  import opened Basics

  const IPV4: nat := 0x0800
  const IPV6: nat := 0x86dd

  datatype Outcome = Packet(tcp: bool, src: nat, dst: nat) | Pending | Ignored | Malformed

  /** The decoder's deeper branches. */
  datatype Deep = Deep(ipv6: seq<Byte> -> Outcome, fragment: seq<Byte> -> Outcome, gre: seq<Byte> -> Outcome,
                       ipInIp: (nat, seq<Byte>) -> Outcome, vxlan: seq<Byte> -> Outcome)

  datatype Mode = PcapLive(egress: bool) | AfXdp | PcapFile | Disabled

  function Be16(s: seq<Byte>, i: nat): (x: nat)
    requires i + 2 <= |s|
    ensures x < 0x1_0000
  {
    (s[i] as int) * 256 + s[i + 1] as int
  }

  predicate IsTag(etherType: nat) {
    etherType == 0x8100 || etherType == 0x88a8 || etherType == 0x9100 || etherType == 0x9200
  }

  datatype Tagged = Tagged(etherType: nat, offset: nat)

  /** Skips up to `n` VLAN tags; None where a tag is cut off. */
  function SkipTags(frame: seq<Byte>, etherType: nat, offset: nat, n: nat): (t: Option<Tagged>)
    ensures t.Some? ==> offset <= t.value.offset
    ensures t.Some? && offset <= |frame| ==> t.value.offset <= |frame|
    decreases n
  {
    if n == 0 || !IsTag(etherType) then Some(Tagged(etherType, offset))
    else if |frame| < offset + 4 then None
    else SkipTags(frame, Be16(frame, offset + 2), offset + 4, n - 1)
  }

  // ---------- The full decoder ----------

  function ParseTcp(tcp: seq<Byte>): Outcome {
    if |tcp| < 20 then Malformed
    else
      var dataOffset := tcp[12] / 16 * 4;
      if dataOffset < 20 || dataOffset > |tcp| then Malformed else Packet(true, Be16(tcp, 0), Be16(tcp, 2))
  }

  predicate IsVxlanPort(port: nat) {
    port == 4789 || port == 8472
  }

  function DecodeUdp(deep: Deep, tunnels: bool, udp: seq<Byte>): Outcome {
    if |udp| < 8 then Malformed
    else
      var len := Be16(udp, 4);
      if len < 8 || len > |udp| then Malformed
      else if tunnels && IsVxlanPort(Be16(udp, 2)) && len >= 16 && udp[8] / 8 % 2 == 1 then deep.vxlan(udp[16..len])
      else Packet(false, Be16(udp, 0), Be16(udp, 2))
  }

  function DecodeIpPayload(deep: Deep, tunnels: bool, protocol: nat, payload: seq<Byte>): Outcome {
    if protocol == 6 then ParseTcp(payload)
    else if protocol == 17 then DecodeUdp(deep, tunnels, payload)
    else if protocol == 47 && tunnels then deep.gre(payload)
    else if (protocol == 4 || protocol == 41) && tunnels then deep.ipInIp(protocol, payload)
    else Ignored
  }

  function DecodeIpv4(deep: Deep, tunnels: bool, packet: seq<Byte>): Outcome {
    if |packet| < 20 || packet[0] / 16 != 4 then Malformed
    else
      var ihl := packet[0] % 16 * 4;
      if ihl < 20 || |packet| < ihl then Malformed
      else
        var total := Be16(packet, 2);
        if total < ihl || total > |packet| then Malformed
        else
          var frag := Be16(packet, 6);
          if frag % 0x2000 * 8 != 0 || frag / 0x2000 % 2 == 1 then deep.fragment(packet)
          else DecodeIpPayload(deep, tunnels, packet[9], packet[ihl..total])
  }

  function DecodeEthernet(deep: Deep, tunnels: bool, frame: seq<Byte>): Outcome {
    if |frame| < 14 then Malformed
    else
      var t := SkipTags(frame, Be16(frame, 12), 14, 4);
      if t.None? then Malformed
      else if t.value.etherType == IPV4 then DecodeIpv4(deep, tunnels, frame[t.value.offset..])
      else if t.value.etherType == IPV6 then deep.ipv6(frame[t.value.offset..])
      else Ignored
  }

  /** The gate after decoding. */
  predicate Visible(services: set<nat>, mode: Mode, o: Outcome) {
    o.Packet?
    && match mode
       case PcapLive(egress) => o.dst in services || (egress && o.src in services)
       case AfXdp => o.dst in services
       case PcapFile => o.dst in services || o.src in services
       case Disabled => false
  }

  // ---------- The prefilter ----------

  function LocalEgress(mode: Mode): Option<bool> {
    match mode
    case PcapLive(egress) => Some(egress)
    case AfXdp => Some(false)
    case PcapFile => None
    case Disabled => None
  }

  predicate PortsMatch(services: set<nat>, localEgress: Option<bool>, src: nat, dst: nat) {
    if localEgress == Some(true) then src in services
    else if localEgress == Some(false) then dst in services
    else src in services || dst in services
  }

  predicate Ipv4May(frame: seq<Byte>, at: nat, services: set<nat>, tunnels: bool, localEgress: Option<bool>) {
    |frame| < at + 20 || frame[at] / 16 != 4
    || (var ihl := frame[at] % 16 * 4;
        ihl < 20 || |frame| < at + ihl
        || Be16(frame, at + 6) % 0x4000 != 0
        || (var protocol, l4 := frame[at + 9], at + ihl;
            if protocol == 6 || protocol == 17 then
              |frame| < l4 + 4
              || PortsMatch(services, localEgress, Be16(frame, l4), Be16(frame, l4 + 2))
              || (tunnels && protocol == 17 && IsVxlanPort(Be16(frame, l4 + 2)))
            else (protocol == 47 || protocol == 4 || protocol == 41) && tunnels))
  }

  /** Rejecting is definitive, accepting only means that the decoder has to look. */
  method FrameMayBelongToService(frame: seq<Byte>, services: set<nat>, tunnels: bool, localEgress: Option<bool>)
    returns (may: bool)
    ensures may == MayBelong(frame, services, tunnels, localEgress)
  {
    if services == {} {
      return false;
    }
    if |frame| < 14 {
      return true;
    }
    var etherType, offset := Be16(frame, 12), 14;
    var n := 0;
    while n < 4 && IsTag(etherType)
      invariant n <= 4 && 14 <= offset <= |frame|
      invariant SkipTags(frame, Be16(frame, 12), 14, 4) == SkipTags(frame, etherType, offset, 4 - n)
    {
      if |frame| < offset + 4 {
        return true;
      }
      etherType := Be16(frame, offset + 2);
      offset := offset + 4;
      n := n + 1;
    }
    if etherType != IPV4 {
      return true;
    }
    may := Ipv4May(frame, offset, services, tunnels, localEgress);
  }

  predicate MayBelong(frame: seq<Byte>, services: set<nat>, tunnels: bool, localEgress: Option<bool>) {
    services != {}
    && (|frame| < 14
        || (var t := SkipTags(frame, Be16(frame, 12), 14, 4);
            t.None? || t.value.etherType != IPV4 || Ipv4May(frame, t.value.offset, services, tunnels, localEgress)))
  }

  // ---------- Agreement ----------

  /** The bit masks of the two forms test the same bits. */
  lemma FragmentBits(frag: nat)
    requires frag % 0x4000 == 0
    ensures frag % 0x2000 * 8 == 0 && frag / 0x2000 % 2 == 0
  {
  }

  /** What the decoder makes of an ordinary IPv4 packet: nothing, or a packet with the
      very ports the prefilter looked at. */
  lemma OrdinaryPorts(frame: seq<Byte>, at: nat, services: set<nat>, tunnels: bool, localEgress: Option<bool>, deep: Deep)
    requires at <= |frame| && !Ipv4May(frame, at, services, tunnels, localEgress)
    ensures var o := DecodeIpv4(deep, tunnels, frame[at..]);
      o.Packet? ==>
        var l4 := at + frame[at] % 16 * 4;
        l4 + 4 <= |frame| && o.src == Be16(frame, l4) && o.dst == Be16(frame, l4 + 2)
        && !PortsMatch(services, localEgress, o.src, o.dst)
  {
    var packet := frame[at..];
    FragmentBits(Be16(frame, at + 6));
    var ihl := packet[0] % 16 * 4;
    assert Be16(packet, 6) == Be16(frame, at + 6) && packet[9] == frame[at + 9];
    var total := Be16(packet, 2);
    if ihl <= total <= |packet| && total - ihl >= 4 {
      var payload := packet[ihl..total];
      assert Be16(payload, 0) == Be16(frame, at + ihl) && Be16(payload, 2) == Be16(frame, at + ihl + 2);
    }
  }

  /** In every mode but live egress a rejected frame would not have been shown, whatever
      the decoder's deeper branches do. */
  lemma RejectingIsSafe(frame: seq<Byte>, services: set<nat>, tunnels: bool, mode: Mode, deep: Deep)
    requires !MayBelong(frame, services, tunnels, LocalEgress(mode))
    requires !(mode.PcapLive? && mode.egress)
    ensures !Visible(services, mode, DecodeEthernet(deep, tunnels, frame))
  {
    hide Ipv4May, DecodeIpv4, SkipTags, PortsMatch;
    if services != {} {
      var t := SkipTags(frame, Be16(frame, 12), 14, 4).value;
      OrdinaryPorts(frame, t.offset, services, tunnels, LocalEgress(mode), deep);
      MatchMeans(services, mode);
    }
  }

  lemma MatchMeans(services: set<nat>, mode: Mode)
    requires !(mode.PcapLive? && mode.egress)
    ensures forall src, dst, tcp |
      !PortsMatch(services, LocalEgress(mode), src, dst) :: !Visible(services, mode, Packet(tcp, src, dst))
  {
  }

  /** At `at` the frame holds a whole unfragmented IPv4 packet with a whole TCP or UDP
      header, whose transport header begins at `l4`. */
  predicate WholeTransport(frame: seq<Byte>, at: nat, l4: nat) {
    && at + 20 <= |frame| && frame[at] / 16 == 4
    && 20 <= frame[at] % 16 * 4 <= Be16(frame, at + 2) <= |frame| - at && l4 == at + frame[at] % 16 * 4
    && Be16(frame, at + 6) % 0x4000 == 0
    && (var len := at + Be16(frame, at + 2) - l4;
        if frame[at + 9] == 6 then len >= 20 && 20 <= frame[l4 + 12] / 16 * 4 <= len
        else frame[at + 9] == 17 && len >= 8 && 8 <= Be16(frame, l4 + 4) <= len)
  }

  /** Its ports, as they stand in the frame: sent to a service, not from one, and not to
      a tunnel that would be opened. */
  predicate SentToService(frame: seq<Byte>, l4: nat, udp: bool, services: set<nat>, tunnels: bool)
    requires l4 + 4 <= |frame|
  {
    && Be16(frame, l4 + 2) in services && Be16(frame, l4) !in services
    && !(tunnels && udp && IsVxlanPort(Be16(frame, l4 + 2)))
  }

  predicate LostAt(frame: seq<Byte>, at: nat, services: set<nat>, tunnels: bool) {
    at + 20 <= |frame|
    && var l4 := at + frame[at] % 16 * 4;
       WholeTransport(frame, at, l4) && SentToService(frame, l4, frame[at + 9] == 17, services, tunnels)
  }

  /** The frames local egress capture loses: behind at most four VLAN tags, a whole packet
      to a service port from another port. */
  predicate LostInEgress(frame: seq<Byte>, services: set<nat>, tunnels: bool) {
    |frame| >= 14
    && var t := SkipTags(frame, Be16(frame, 12), 14, 4);
       t.Some? && t.value.etherType == IPV4 && LostAt(frame, t.value.offset, services, tunnels)
  }

  /** An IPv4 packet that is rejected by its ports decodes exactly if it is whole. */
  lemma RejectedDecodes(frame: seq<Byte>, at: nat, services: set<nat>, tunnels: bool, deep: Deep)
    requires at <= |frame| && !Ipv4May(frame, at, services, tunnels, Some(true))
    ensures var o := DecodeIpv4(deep, tunnels, frame[at..]);
      o.Packet? <==> WholeTransport(frame, at, at + frame[at] % 16 * 4)
  {
    var packet := frame[at..];
    FragmentBits(Be16(frame, at + 6));
    var ihl, total := packet[0] % 16 * 4, Be16(packet, 2);
    assert Be16(packet, 6) == Be16(frame, at + 6) && packet[9] == frame[at + 9] && total == Be16(frame, at + 2);
    if ihl <= total <= |packet| {
      var payload := packet[ihl..total];
      if |payload| >= 8 {
        assert Be16(payload, 2) == Be16(frame, at + ihl + 2) && Be16(payload, 4) == Be16(frame, at + ihl + 4);
      }
      if |payload| >= 20 {
        assert payload[12] == frame[at + ihl + 12];
      }
    }
  }

  /** A whole packet to a service from another port is rejected. */
  lemma LostIsRejected(frame: seq<Byte>, at: nat, services: set<nat>, tunnels: bool)
    requires LostAt(frame, at, services, tunnels)
    ensures !Ipv4May(frame, at, services, tunnels, Some(true))
  {
  }

  /** Live egress rejects a frame that would have been shown if and only if its bytes are
      those of a whole packet to a service port from another port, whatever the decoder's
      deeper branches do. */
  lemma EgressLosesIff(frame: seq<Byte>, services: set<nat>, tunnels: bool, deep: Deep)
    ensures !MayBelong(frame, services, tunnels, Some(true)) && Visible(services, PcapLive(true), DecodeEthernet(deep, tunnels, frame))
      <==> LostInEgress(frame, services, tunnels)
  {
    hide Ipv4May, DecodeIpv4, SkipTags, WholeTransport;
    if |frame| >= 14 && SkipTags(frame, Be16(frame, 12), 14, 4).Some? {
      var t := SkipTags(frame, Be16(frame, 12), 14, 4).value;
      if t.etherType == IPV4 {
        if LostAt(frame, t.offset, services, tunnels) { LostIsRejected(frame, t.offset, services, tunnels); }
        if !Ipv4May(frame, t.offset, services, tunnels, Some(true)) {
          RejectedEgress(frame, t.offset, services, tunnels, deep);
        }
      }
    }
  }

  lemma RejectedEgress(frame: seq<Byte>, at: nat, services: set<nat>, tunnels: bool, deep: Deep)
    requires at <= |frame| && !Ipv4May(frame, at, services, tunnels, Some(true))
    ensures Visible(services, PcapLive(true), DecodeIpv4(deep, tunnels, frame[at..])) <==> LostAt(frame, at, services, tunnels)
  {
    OrdinaryPorts(frame, at, services, tunnels, Some(true), deep);
    RejectedDecodes(frame, at, services, tunnels, deep);
    RejectedPorts(frame, at, services, tunnels);
    hide Ipv4May, DecodeIpv4, WholeTransport;
  }

  /** What a rejection says of the bytes. */
  lemma RejectedPorts(frame: seq<Byte>, at: nat, services: set<nat>, tunnels: bool)
    requires at <= |frame| && !Ipv4May(frame, at, services, tunnels, Some(true))
    ensures at + 20 <= |frame|
    ensures var l4 := at + frame[at] % 16 * 4;
      WholeTransport(frame, at, l4) ==>
        l4 + 4 <= |frame| && Be16(frame, l4) !in services
        && !(tunnels && frame[at + 9] == 17 && IsVxlanPort(Be16(frame, l4 + 2)))
  {
  }

  /** A UDP packet from port 40000 of 10.0.0.1 to port 80 of 10.0.0.2. */
  const EGRESS_FRAME: seq<Byte> :=
    [2, 0, 0, 0, 0, 1, 2, 0, 0, 0, 0, 2, 8, 0,
     69, 0, 0, 28, 0, 1, 0, 0, 64, 17, 0, 0, 10, 0, 0, 1, 10, 0, 0, 2,
     156, 64, 0, 80, 0, 8, 0, 0]

  lemma EgressBytes()
    ensures |EGRESS_FRAME| == 42 && Be16(EGRESS_FRAME, 12) == IPV4
    ensures EGRESS_FRAME[14] == 69 && Be16(EGRESS_FRAME, 16) == 28 && Be16(EGRESS_FRAME, 20) == 0 && EGRESS_FRAME[23] == 17
    ensures Be16(EGRESS_FRAME, 34) == 40000 && Be16(EGRESS_FRAME, 36) == 80 && Be16(EGRESS_FRAME, 38) == 8
  {
    var f := EGRESS_FRAME;
    assert |f| == 42 && f[12] == 8 && f[13] == 0;
    assert f[14] == 69 && f[16] == 0 && f[17] == 28;
    assert f[20] == 0 && f[21] == 0 && f[23] == 17;
    assert f[34] == 156 && f[35] == 64 && f[36] == 0 && f[37] == 80;
    assert f[38] == 0 && f[39] == 8;
  }

  /** Such frames exist: from this host, to a service port of another host. */
  lemma EgressExample(deep: Deep)
    ensures !MayBelong(EGRESS_FRAME, {80}, false, Some(true))
    ensures Visible({80}, PcapLive(true), DecodeEthernet(deep, false, EGRESS_FRAME))
  {
    EgressBytes();
    EgressLosesIff(EGRESS_FRAME, {80}, false, deep);
    hide DecodeEthernet, MayBelong, Visible, EGRESS_FRAME;
    assert SkipTags(EGRESS_FRAME, IPV4, 14, 4) == Some(Tagged(IPV4, 14));
  }
}
