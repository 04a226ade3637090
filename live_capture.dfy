/**
 * The live packet feature extractor of `common/live_capture.py`.
 *
 * Sniffing, the clock and the random stand-in classifier are outside the
 * model: a packet is a record with the layers scapy would report, the time
 * is a parameter (an integer count of 0.1 ms ticks, the precision the code
 * rounds durations to), and the fake label and confidence are chosen
 * nondeterministically from the ranges the code draws them from.
 */
module LiveCapture {
  import opened Wrappers
  import opened Strings

  datatype IpLayer = IpLayer(src: string, dst: string, proto: int)

  /** The transport layer: TCP with its flag bits, UDP, or anything else. */
  datatype Transport = Tcp(flags: bv16) | Udp | OtherTransport

  datatype Packet = Packet(ip: Option<IpLayer>, transport: Transport, length: nat)

  /** The event the generator yields; confidence is in hundredths. */
  datatype LiveEvent = LiveEvent(row: nat, features: map<string, int>, prediction: string, confidence: int, severity: string)

  const Labels: seq<string> := ["Normal", "DoS", "Probe"]

  /** `protocol_type`: 1 for TCP, 2 for UDP, 3 for everything else. */
  function ProtocolType(t: Transport): (r: nat)
    ensures 1 <= r <= 3
    ensures r == 1 <==> t.Tcp?
    ensures r == 2 <==> t.Udp?
  {
    match t
    case Tcp(_) => 1
    case Udp => 2
    case OtherTransport => 3
  }

  /** `f"{src_ip}-{dst_ip}-{protocol_type}"`. */
  function FlowId(src: string, dst: string, protocolType: nat): string {
    src + "-" + dst + "-" + NatToString(protocolType)
  }

  /** A single-digit number is written as one digit. */
  lemma SmallNatToString(n: nat)
    requires n < 10
    ensures NatToString(n) == [DigitChar(n)]
  {
  }

  /**
   * Addresses never contain "-", so two packets share a flow exactly when
   * source, destination and protocol type all agree.
   */
  lemma FlowIdInjective(src1: string, dst1: string, p1: nat, src2: string, dst2: string, p2: nat)
    requires '-' !in src1 && '-' !in dst1 && '-' !in src2 && '-' !in dst2
    requires 1 <= p1 <= 3 && 1 <= p2 <= 3
    ensures FlowId(src1, dst1, p1) == FlowId(src2, dst2, p2) <==> src1 == src2 && dst1 == dst2 && p1 == p2
  {
    SmallNatToString(p1);
    SmallNatToString(p2);
    if FlowId(src1, dst1, p1) == FlowId(src2, dst2, p2) {
      var s := FlowId(src1, dst1, p1);
      var tail1 := dst1 + "-" + [DigitChar(p1)];
      var tail2 := dst2 + "-" + [DigitChar(p2)];
      assert s == src1 + "-" + tail1 && s == src2 + "-" + tail2;
      FirstDashSplits(src1, tail1, src2, tail2);
      assert tail1 == tail2;
      FirstDashSplits(dst1, [DigitChar(p1)], dst2, [DigitChar(p2)]);
      assert DigitChar(p1) == DigitChar(p2);
    }
  }

  /** A dash-free head before the first "-" is determined by the whole string. */
  lemma FirstDashSplits(a: string, b: string, c: string, d: string)
    requires '-' !in a && '-' !in c
    requires a + "-" + b == c + "-" + d
    ensures a == c && b == d
  {
    var s := a + "-" + b;
    assert IndexOf(s, '-') == |a| by {
      assert s[|a|] == '-';
      assert forall j :: 0 <= j < |a| ==> s[j] == a[j];
    }
    assert IndexOf(s, '-') == |c| by {
      assert s[|c|] == '-';
      assert forall j :: 0 <= j < |c| ==> s[j] == c[j];
    }
    assert a == s[..|a|] && c == s[..|c|];
    assert b == s[|a| + 1..] && d == s[|c| + 1..];
  }

  /** The simplified TCP flag code: SYN beats ACK beats FIN; None leaves the default. */
  function FlagCode(flags: bv16): (r: Option<int>)
    ensures flags & 0x02 != 0 ==> r == Some(1)
    ensures flags & 0x02 == 0 && flags & 0x10 != 0 ==> r == Some(2)
    ensures flags & 0x02 == 0 && flags & 0x10 == 0 && flags & 0x01 != 0 ==> r == Some(3)
    ensures r.None? <==> flags & 0x13 == 0
  {
    if flags & 0x02 != 0 then Some(1)
    else if flags & 0x10 != 0 then Some(2)
    else if flags & 0x01 != 0 then Some(3)
    else None
  }

  /** A SYN-ACK is coded as SYN, a FIN-ACK as ACK. */
  lemma FlagPrecedence()
    ensures FlagCode(0x12) == Some(1) && FlagCode(0x11) == Some(2) && FlagCode(0x01) == Some(3)
    ensures FlagCode(0x04) == None
  {
  }

  /** The stand-in classifier's severity: anything but "Normal" is "High". */
  function CaptureSeverity(attack: string): (r: string)
    ensures r == "Low" <==> attack == "Normal"
    ensures r == "Low" || r == "High"
  {
    if attack == "Normal" then "Low" else "High"
  }

  /**
   * The feature vector of an IP packet: the template with protocol type, land,
   * the flow's byte counts, its duration and (for TCP) the flag code filled in.
   */
  function Features(base: map<string, int>, ip: IpLayer, t: Transport, srcBytes: int, duration: int): map<string, int>
  {
    var f := base["protocol_type" := ProtocolType(t)]["land" := if ip.src == ip.dst then 1 else 0]
                 ["src_bytes" := srcBytes]["dst_bytes" := 0]["duration" := duration];
    if t.Tcp? && FlagCode(t.flags).Some? then f["flag" := FlagCode(t.flags).value] else f
  }

  /**
   * The feature vector keeps the template's keys and values except for
   * protocol type, land (same source and destination), the flow's source-byte
   * sum, dst_bytes 0, the duration and, for TCP, the flag code when there is one.
   */
  lemma FeaturesFilled(base: map<string, int>, ip: IpLayer, t: Transport, srcBytes: int, duration: int, f: map<string, int>)
    requires f == Features(base, ip, t, srcBytes, duration)
    ensures f.Keys == base.Keys + {"protocol_type", "land", "src_bytes", "dst_bytes", "duration"}
                      + (if t.Tcp? && FlagCode(t.flags).Some? then {"flag"} else {})
    ensures "protocol_type" in f && "land" in f && "src_bytes" in f && "dst_bytes" in f && "duration" in f
    ensures f["protocol_type"] == ProtocolType(t)
    ensures f["land"] == (if ip.src == ip.dst then 1 else 0)
    ensures f["src_bytes"] == srcBytes && f["dst_bytes"] == 0 && f["duration"] == duration
    ensures t.Tcp? && FlagCode(t.flags).Some? ==> "flag" in f && f["flag"] == FlagCode(t.flags).value
    ensures !(t.Tcp? && FlagCode(t.flags).Some?) && "flag" in base ==> "flag" in f && f["flag"] == base["flag"]
    ensures !(t.Tcp? && FlagCode(t.flags).Some?) ==> ("flag" in f <==> "flag" in base)
    ensures forall k :: k in base && k !in {"protocol_type", "land", "src_bytes", "dst_bytes", "duration", "flag"} ==> f[k] == base[k]
  {
  }

  /** Sum of the lengths recorded for one flow. */
  function FlowBytes(seen: seq<(string, nat)>, id: string): nat {
    if seen == [] then 0
    else FlowBytes(seen[..|seen| - 1], id) + (if seen[|seen| - 1].0 == id then seen[|seen| - 1].1 else 0)
  }

  /** Recording a packet adds its length to its own flow and to no other. */
  lemma FlowBytesStep(seen: seq<(string, nat)>, id: string, length: nat, other: string)
    ensures FlowBytes(seen + [(id, length)], id) == FlowBytes(seen, id) + length
    ensures other != id ==> FlowBytes(seen + [(other, length)], id) == FlowBytes(seen, id)
  {
    assert (seen + [(id, length)])[..|seen|] == seen;
    assert (seen + [(other, length)])[..|seen|] == seen;
  }

  /** A flow nobody has recorded has counted no bytes. */
  lemma {:induction false} FlowBytesUnseen(seen: seq<(string, nat)>, id: string)
    requires forall k :: 0 <= k < |seen| ==> seen[k].0 != id
    ensures FlowBytes(seen, id) == 0
  {
    if seen != [] {
      FlowBytesUnseen(seen[..|seen| - 1], id);
    }
  }

  /**
   * What processing one fed IP packet `item` (the packet and the time it was
   * read) yields: its flow's length is recorded, the flow's start time is kept
   * or set to now, and the event carries the feature vector of the flow's new
   * byte sum and age, a label, a confidence in 70..99 and that label's severity.
   */
  ghost predicate Processed(seen0: seq<(string, nat)>, start0: map<string, int>, base: map<string, int>,
                            item: (Packet, int), seen: seq<(string, nat)>, start: map<string, int>, e: LiveEvent)
  {
    && item.0.ip.Some?
    && var ip := item.0.ip.value;
       var id := FlowId(ip.src, ip.dst, ProtocolType(item.0.transport));
       && seen == seen0 + [(id, item.0.length)]
       && start == (if id in start0 then start0 else start0[id := item.1])
       && e.features == Features(base, ip, item.0.transport, FlowBytes(seen, id), item.1 - start[id])
       && e.prediction in Labels
       && 70 <= e.confidence <= 99
       && e.severity == CaptureSeverity(e.prediction)
  }

  /**
   * The stand-in classifier output: a label drawn from Normal/DoS/Probe, a
   * confidence in 0.70..0.99 (in hundredths) and the label's severity. The
   * random draws are left open.
   */
  method FakeOutput() returns (attack: string, confidence: int, severity: string)
    ensures attack in Labels && 70 <= confidence <= 99
    ensures severity == CaptureSeverity(attack)
  {
    assert "Normal" in Labels;
    attack :| attack in Labels;
    confidence :| 70 <= confidence <= 99;
    severity := if attack == "Normal" then "Low" else "High";
  }

  /** The closure state of one `live_packet_stream` generator. */
  class Capture {
    var packetNo: nat
    var byteCounts: map<string, (int, int)>
    var startTimes: map<string, int>
    const base: map<string, int>
    /** The flow and length of every IP packet processed so far. */
    ghost var seen: seq<(string, nat)>

    /** Each flow's counters are (running sum of its lengths, 0); its start time was set with them. */
    ghost predicate Valid()
      reads this
    {
      && byteCounts.Keys == startTimes.Keys
      && (forall k :: 0 <= k < |seen| ==> seen[k].0 in byteCounts)
      && (forall id :: id in byteCounts ==> byteCounts[id] == (FlowBytes(seen, id), 0))
    }

    constructor (template: map<string, int>)
      ensures Valid() && packetNo == 0 && byteCounts == map[] && startTimes == map[] && seen == []
      ensures base == template
    {
      packetNo := 0;
      byteCounts := map[];
      startTimes := map[];
      base := template;
      seen := [];
    }

    /**
     * The per-flow bookkeeping of one IP packet: its length joins the flow's
     * source-byte sum (a new flow starts at 0) and a new flow's start time is now.
     */
    method Record(id: string, length: nat, now: int)
      requires Valid()
      modifies this
      ensures Valid()
      ensures packetNo == old(packetNo)
      ensures seen == old(seen) + [(id, length)]
      ensures startTimes == if id in old(startTimes) then old(startTimes) else old(startTimes)[id := now]
      ensures id in byteCounts && id in startTimes
    {
      if id !in byteCounts {
        FlowBytesUnseen(seen, id);
        byteCounts := byteCounts[id := (0, 0)];
      }
      var counts := byteCounts[id];
      byteCounts := byteCounts[id := (counts.0 + length, counts.1)];
      forall other | other in byteCounts
        ensures byteCounts[other] == (FlowBytes(seen + [(id, length)], other), 0)
      {
        FlowBytesStep(seen, id, length, other);
      }
      seen := seen + [(id, length)];
      if id !in startTimes {
        startTimes := startTimes[id := now];
      }
    }

    /**
     * `process_packet`: every packet advances the counter; a non-IP packet
     * yields nothing and changes nothing else. An IP packet adds its length to
     * its flow's source-byte sum, fixes the flow's start time on first sight,
     * and yields the numbered event with its feature vector and a stand-in
     * label whose severity is Low exactly for "Normal".
     */
    method ProcessPacket(p: Packet, now: int) returns (e: Option<LiveEvent>)
      requires Valid()
      modifies this
      ensures Valid()
      ensures packetNo == old(packetNo) + 1
      ensures p.ip.None? ==> e.None? && byteCounts == old(byteCounts) && startTimes == old(startTimes) && seen == old(seen)
      ensures p.ip.Some? ==>
        && e.Some?
        && e.value.row == packetNo
        && Processed(old(seen), old(startTimes), base, (p, now), seen, startTimes, e.value)
    {
      packetNo := packetNo + 1;
      if p.ip.None? {
        return None;
      }
      var ip := p.ip.value;
      var protocolType := ProtocolType(p.transport);
      var id := FlowId(ip.src, ip.dst, protocolType);
      Record(id, p.length, now);
      var features := Features(base, ip, p.transport, byteCounts[id].0, now - startTimes[id]);
      assert features == Features(base, ip, p.transport, FlowBytes(seen, id), now - startTimes[id]);
      var attack, confidence, severity := FakeOutput();
      e := Some(LiveEvent(packetNo, features, attack, confidence, severity));
    }

    /**
     * The sniff loop up to the next yield: packets of `feed` are processed in
     * order until one yields an event. `used` is how many were consumed; every
     * one before the last was a non-IP packet. None when the feed runs out.
     */
    method NextEvent(feed: seq<(Packet, int)>) returns (e: Option<LiveEvent>, used: nat)
      requires Valid()
      modifies this
      ensures Valid()
      ensures used <= |feed| && packetNo == old(packetNo) + used
      ensures forall k :: 0 <= k < used - 1 ==> feed[k].0.ip.None?
      ensures e.None? ==> used == |feed| && forall k :: 0 <= k < |feed| ==> feed[k].0.ip.None?
      ensures e.None? ==> byteCounts == old(byteCounts) && startTimes == old(startTimes) && seen == old(seen)
      ensures e.Some? ==> 0 < used && e.value.row == packetNo
      ensures e.Some? ==> Processed(old(seen), old(startTimes), base, feed[used - 1], seen, startTimes, e.value)
    {
      used := 0;
      e := None;
      while used < |feed|
        invariant Valid()
        invariant used <= |feed| && packetNo == old(packetNo) + used
        invariant forall k :: 0 <= k < used ==> feed[k].0.ip.None?
        invariant e.None?
        invariant byteCounts == old(byteCounts) && startTimes == old(startTimes) && seen == old(seen)
        decreases |feed| - used
      {
        var packet := feed[used].0;
        e := ProcessPacket(packet, feed[used].1);
        used := used + 1;
        if e.Some? {
          return;
        }
      }
    }
  }

  /**
   * The stand-in classifier and the severity mapper disagree on "Probe": the
   * log records High where `detect_severity` says Medium.
   */
  lemma CaptureSeverityOnLabels()
    ensures CaptureSeverity("Normal") == "Low"
    ensures CaptureSeverity("DoS") == "High"
    ensures CaptureSeverity("Probe") == "High"
  {
  }
}
