/**
 * The ICMP collector: one collector per configured host, each reporting for every ping
 * whether the host name resolved, whether the ping timed out, and (when measured) the round
 * trip time and the TTL of the reply.
 */
module Icmp {
  import opened Optional
  import opened Metrics
  import opened GoStrings

  /** A registered collector; only ICMP collectors are modelled. */
  datatype Collector = ICMPCollector(host: string)

  /** ICMPCollector.Name */
  function Name(c: Collector): (n: string)
    ensures HasPrefix(n, "icmp-") && n[5..] == c.host
  {
    "icmp-" + c.host
  }

  /** The global list of collectors, of which `ICMP` is the only writer modelled here. */
  class Registry {
    var collectors: seq<Collector>

    constructor()
      ensures collectors == []
    {
      collectors := [];
    }

    /**
     * ICMP(host): an empty host name is an error and registers nothing; any other host
     * appends exactly one collector for it.
     */
    method ICMP(host: string) returns (err: Option<string>)
      modifies this
      ensures host == "" ==> err == Some("empty ICMP hostname") && collectors == old(collectors)
      ensures host != "" ==> err.None? && collectors == old(collectors) + [ICMPCollector(host)]
      ensures host != "" ==> Name(collectors[|collectors| - 1]) == "icmp-" + host
    {
      if host == "" {
        return Some("empty ICMP hostname");
      }
      collectors := collectors + [ICMPCollector(host)];
      return None;
    }
  }

  /** The error a ping ended with: none, a failure to resolve the host, or any other. */
  datatype PingError = NoError | DNSError | OtherError

  /**
   * One ping: the Unix second it was sent, its round trip time in nanoseconds (0 when no reply
   * was timed) and the TTL of the reply (0 when there was none).
   */
  datatype Ping = Ping(sent: int, rtt: int, ttl: int)

  const RESOLVED := "ping.resolved"
  const TIMEOUT := "ping.timeout"
  const RTT := "ping.rtt"
  const TTL := "ping.ttl"

  function HostTags(host: string): Tags {
    map["dst_host" := host]
  }

  /** The round trip time in milliseconds: a Duration divided by time.Millisecond. */
  function Milliseconds(rtt: int): real {
    rtt as real / 1000000.0
  }

  /**
   * The points the `handle` closure builds for one ping: whether the name resolved, whether
   * it timed out, then the round trip time and the TTL when they are not zero.
   */
  function PingPoints(host: string, p: Ping, err: PingError): (md: seq<Point>)
    ensures |md| == 2 + (if p.rtt != 0 then 1 else 0) + (if p.ttl != 0 then 1 else 0)
    ensures md[0] == AddTS(RESOLVED, p.sent, BoolVal(!err.DNSError?), HostTags(host), Unknown, NoUnit)
    ensures md[1] == AddTS(TIMEOUT, p.sent, BoolVal(!err.NoError?), HostTags(host), Unknown, NoUnit)
    ensures md[0].value == BoolVal(false) ==> md[1].value == BoolVal(true)
    ensures p.rtt != 0 ==> md[2] == AddTS(RTT, p.sent, RealVal(Milliseconds(p.rtt)), HostTags(host), Unknown, NoUnit)
    ensures p.ttl != 0 ==> md[|md| - 1] == AddTS(TTL, p.sent, IntVal(p.ttl), HostTags(host), Unknown, NoUnit)
  {
    var t := HostTags(host);
    var md := [AddTS(RESOLVED, p.sent, BoolVal(!err.DNSError?), t, Unknown, NoUnit),
               AddTS(TIMEOUT, p.sent, BoolVal(!err.NoError?), t, Unknown, NoUnit)];
    var md := if p.rtt != 0 then md + [AddTS(RTT, p.sent, RealVal(Milliseconds(p.rtt)), t, Unknown, NoUnit)] else md;
    if p.ttl != 0 then md + [AddTS(TTL, p.sent, IntVal(p.ttl), t, Unknown, NoUnit)] else md
  }

  /**
   * Every point of a ping is tagged with its destination host and stamped with the second the
   * ping was sent; there are two to four of them, and the round trip time and TTL points are
   * present exactly when those values are not zero.
   */
  lemma PingPointsShape(host: string, p: Ping, err: PingError)
    ensures 2 <= |PingPoints(host, p, err)| <= 4
    ensures forall q :: q in PingPoints(host, p, err) ==>
      q.tags == map["dst_host" := host] && q.timestamp == Some(p.sent) && q.rate == Unknown
    ensures (exists q :: q in PingPoints(host, p, err) && q.metric == RTT) <==> p.rtt != 0
    ensures (exists q :: q in PingPoints(host, p, err) && q.metric == TTL) <==> p.ttl != 0
  {
    var md := PingPoints(host, p, err);
    assert RTT != RESOLVED && RTT != TIMEOUT && RTT != TTL by {
      assert RTT[5] == 'r' && RESOLVED[5] == 'r' && RTT[6] == 't' && RESOLVED[6] == 'e';
      assert TIMEOUT[5] == 't' && TTL[5] == 't';
    }
    assert TTL != RESOLVED && TTL != TIMEOUT by {
      assert |TTL| == 8 && |RESOLVED| == 13 && |TIMEOUT| == 12;
    }
    if p.rtt != 0 {
      assert md[2] in md;
    }
    if p.ttl != 0 {
      assert md[|md| - 1] in md;
    }
  }
}
