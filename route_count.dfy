/**
 * The route-count collector: it counts the kernel's routes, and for every gateway the routes
 * through it and the address space they cover.
 */
module RouteCount {
  import opened Optional
  import opened Metrics
  import opened Bags
  import opened GoNet

  /** A netlink route; None stands for a nil gateway or destination. */
  datatype Route = Route(gw: Option<IP>, dst: Option<IPNet>)

  datatype RouteStat = RouteStat(ips: int, routes: int)


  const MIN_INT64: int := -0x8000_0000_0000_0000
  const TWO_TO_64: int := 0x1_0000_0000_0000_0000

  /** The address the route filter treats as absent: equal to IPv4zero or to IPv6zero. */
  predicate IsZero(ip: IP) {
    IPEqual(ip, IPV4_ZERO) || IPEqual(ip, IPV6_ZERO)
  }

  /** An address is filtered as zero exactly when it is 0.0.0.0 (in either form) or ::. */
  lemma IsZeroIff(ip: IP)
    ensures IsZero(ip) <==> To4(ip) == Some([0, 0, 0, 0]) || ip == IPV6_ZERO
  {
    if |ip| == 16 {
      if ip[..12] == V4_IN_V6_PREFIX && ip[12..] == [0, 0, 0, 0] {
        assert ip == IPV4_ZERO;
      }
      if ip == IPV4_ZERO {
        assert ip[12..] == [0, 0, 0, 0];
      }
    }
  }

  /** A route contributes to the per-gateway statistics only with a non-zero gateway and destination. */
  predicate Kept(r: Route) {
    r.gw.Some? && !IsZero(r.gw.value) && r.dst.Some? && !IsZero(r.dst.value.ip)
  }

  function Family(gw: IP): string {
    if To4(gw).None? then "IPv6" else "IPv4"
  }

  /** The address space of an IPv6 route is counted in /64 networks. */
  function Offset(gw: IP): int {
    if To4(gw).None? then 64 else 0
  }

  function Pow2(n: nat): (r: nat)
    ensures r >= 1
  {
    if n == 0 then 1 else 2 * Pow2(n - 1)
  }

  /**
   * `1 << uint(c)` as a Go int: a negative count converts to a huge unsigned count, and any
   * count of 64 or more shifts the bit out; a count of 63 lands on the sign bit.
   */
  function ShiftOne(c: int): int {
    if 0 <= c < 63 then Pow2(c)
    else if c == 63 then MIN_INT64
    else 0
  }

  /** The Go int (64-bit two's complement) that the integer `x` wraps to. */
  function Wrap64(x: int): (r: int)
    ensures MIN_INT64 <= r < MIN_INT64 + TWO_TO_64
  {
    (x - MIN_INT64) % TWO_TO_64 + MIN_INT64
  }

  lemma Wrap64Add(a: int, c: int)
    ensures Wrap64(Wrap64(a) + c) == Wrap64(a + c)
  {
    var x := a - MIN_INT64;
    var q := x / TWO_TO_64;
    assert x == q * TWO_TO_64 + x % TWO_TO_64;
    assert (x % TWO_TO_64 + c) == (x + c) - q * TWO_TO_64;
    ModMinusMultiple(x + c, q);
  }

  lemma ModMinusMultiple(z: int, q: int)
    ensures (z - q * TWO_TO_64) % TWO_TO_64 == z % TWO_TO_64
  {
    var r := z % TWO_TO_64;
    var d := z / TWO_TO_64;
    assert z - q * TWO_TO_64 == (d - q) * TWO_TO_64 + r;
  }

  /**
   * `1 << uint(bits-ones-ipo)`: the address space a kept route adds to its gateway (a route
   * without a gateway or destination is never kept, and adds nothing).
   */
  function Contribution(r: Route): int {
    if r.gw.None? || r.dst.None? then 0
    else
      var (ones, bits) := MaskSize(r.dst.value.mask);
      ShiftOne(bits - ones - Offset(r.gw.value))
  }

  /** One more route of family `f` through gateway `gw`, adding `c` addresses. */
  function Bump(rs: map<string, map<string, RouteStat>>, f: string, gw: string, c: int)
    : map<string, map<string, RouteStat>>
  {
    var m := if f in rs then rs[f] else map[];
    var prior := if gw in m then m[gw] else RouteStat(0, 0);
    rs[f := m[gw := RouteStat(Wrap64(prior.ips + c), prior.routes + 1)]]
  }

  /** The statistics after one more route, as the loop body of c_routeCount updates them. */
  function Step(rs: map<string, map<string, RouteStat>>, r: Route, show: IP -> string)
    : map<string, map<string, RouteStat>>
  {
    if !Kept(r) then rs
    else Bump(rs, Family(r.gw.value), show(r.gw.value), Contribution(r))
  }

  /** The statistics of a list of routes, route by route. */
  function Stats(routes: seq<Route>, show: IP -> string): map<string, map<string, RouteStat>>
    decreases |routes|
  {
    if routes == [] then map[]
    else Step(Stats(routes[..|routes| - 1], show), routes[|routes| - 1], show)
  }

  /** The kept routes of family `f` whose gateway prints as `gw`. */
  function Via(routes: seq<Route>, show: IP -> string, f: string, gw: string): (via: seq<Route>)
    ensures forall k :: 0 <= k < |via| ==> Kept(via[k])
    decreases |routes|
  {
    if routes == [] then []
    else
      var r := routes[|routes| - 1];
      var prior := Via(routes[..|routes| - 1], show, f, gw);
      if Through(r, show, f, gw) then prior + [r] else prior
  }

  /** The address space of some kept routes, summed without wrapping. */
  function SumContributions(via: seq<Route>): int {
    if via == [] then 0
    else SumContributions(via[..|via| - 1]) + Contribution(via[|via| - 1])
  }

  /** Only the two families occur, and a family is present only with some gateway. */
  lemma {:induction false} StatsFamilies(routes: seq<Route>, show: IP -> string)
    ensures forall f :: f in Stats(routes, show) ==>
      (f == "IPv4" || f == "IPv6") && Stats(routes, show)[f] != map[]
    decreases |routes|
  {
    if routes != [] {
      StatsFamilies(routes[..|routes| - 1], show);
    }
  }

  /** The statistics of one family and gateway, if any route through it was counted. */
  function Lookup(rs: map<string, map<string, RouteStat>>, f: string, gw: string): Option<RouteStat> {
    if f in rs && gw in rs[f] then Some(rs[f][gw]) else None
  }

  /** What a bucket should hold for the kept routes `via` through it: nothing when there are none. */
  function Expected(via: seq<Route>): Option<RouteStat> {
    if via == [] then None else Some(RouteStat(Wrap64(SumContributions(via)), |via|))
  }

  /** Whether route `r` is counted in the bucket of family `f` and gateway `gw`. */
  predicate Through(r: Route, show: IP -> string, f: string, gw: string) {
    Kept(r) && Family(r.gw.value) == f && show(r.gw.value) == gw
  }

  /** One more route changes only its own bucket: one more route, and its address space added. */
  lemma StepLookup(rs: map<string, map<string, RouteStat>>, r: Route, show: IP -> string, f: string, gw: string)
    ensures Through(r, show, f, gw) ==>
      var prior := if Lookup(rs, f, gw).Some? then Lookup(rs, f, gw).value else RouteStat(0, 0);
      Lookup(Step(rs, r, show), f, gw) == Some(RouteStat(Wrap64(prior.ips + Contribution(r)), prior.routes + 1))
    ensures !Through(r, show, f, gw) ==> Lookup(Step(rs, r, show), f, gw) == Lookup(rs, f, gw)
  {
  }

  /** A bucket that matched its routes so far still matches them after one more step. */
  lemma StepExpected(rs: map<string, map<string, RouteStat>>, r: Route, show: IP -> string, f: string, gw: string,
                     via: seq<Route>)
    requires Lookup(rs, f, gw) == Expected(via)
    ensures Through(r, show, f, gw) ==> Lookup(Step(rs, r, show), f, gw) == Expected(via + [r])
    ensures !Through(r, show, f, gw) ==> Lookup(Step(rs, r, show), f, gw) == Expected(via)
  {
    StepLookup(rs, r, show, f, gw);
    if Through(r, show, f, gw) {
      ExpectedSnoc(via, r);
    }
  }

  /** One more kept route adds one route and its address space to what a bucket should hold. */
  lemma ExpectedSnoc(via: seq<Route>, r: Route)
    ensures var prior := if Expected(via).Some? then Expected(via).value else RouteStat(0, 0);
      Expected(via + [r]) == Some(RouteStat(Wrap64(prior.ips + Contribution(r)), prior.routes + 1))
  {
    var via' := via + [r];
    var c := Contribution(r);
    assert via'[..|via'| - 1] == via;
    assert SumContributions(via') == SumContributions(via) + c;
    if via != [] {
      Wrap64Add(SumContributions(via), c);
    }
  }

  /**
   * For each family and gateway, the statistics hold the number of kept routes through it
   * and (wrapped to a Go int) the address space they cover; a gateway without kept routes
   * is absent.
   */
  lemma {:induction false} StatsMeaning(routes: seq<Route>, show: IP -> string, f: string, gw: string)
    ensures Lookup(Stats(routes, show), f, gw) == Expected(Via(routes, show, f, gw))
    decreases |routes|
  {
    if routes != [] {
      var prefix := routes[..|routes| - 1];
      var r := routes[|routes| - 1];
      StatsMeaning(prefix, show, f, gw);
      StepExpected(Stats(prefix, show), r, show, f, gw, Via(prefix, show, f, gw));
    }
  }

  /** The aggregation loop of c_routeCount. */
  method Aggregate(routes: seq<Route>, show: IP -> string) returns (rs: map<string, map<string, RouteStat>>)
    ensures rs == Stats(routes, show)
  {
    rs := map[];
    for i := 0 to |routes|
      invariant rs == Stats(routes[..i], show)
    {
      var r := routes[i];
      assert routes[..i + 1][..i] == routes[..i];
      ghost var before := rs;
      assert Stats(routes[..i + 1], show) == Step(before, r, show);
      if r.gw.None? || IPEqual(r.gw.value, IPV4_ZERO) || IPEqual(r.gw.value, IPV6_ZERO) {
        assert Step(before, r, show) == before;
        continue;
      }
      if r.dst.None? || IPEqual(r.dst.value.ip, IPV4_ZERO) || IPEqual(r.dst.value.ip, IPV6_ZERO) {
        assert Step(before, r, show) == before;
        continue;
      }
      var f := "IPv4";
      var ipo := 0;
      if To4(r.gw.value).None? {
        f := "IPv6";
        ipo := 64;
      }
      if f !in rs {
        rs := rs[f := map[]];
      }
      var (ones, bits) := MaskSize(r.dst.value.mask);
      var gw := show(r.gw.value);
      var prior := if gw in rs[f] then rs[f][gw] else RouteStat(0, 0);
      BumpLazily(before, rs, f, gw, prior, ShiftOne(bits - ones - ipo));
      ContributionIs(r, ones, bits);
      rs := rs[f := rs[f][gw := RouteStat(Wrap64(prior.ips + ShiftOne(bits - ones - ipo)), prior.routes + 1)]];
      assert rs == Step(before, r, show);
    }
    assert routes[..|routes|] == routes;
  }

  /**
   * The loop body's update, with the family's map created first when it is missing, is one
   * Bump.
   */
  lemma BumpLazily(before: map<string, map<string, RouteStat>>, mid: map<string, map<string, RouteStat>>,
                   f: string, gw: string, prior: RouteStat, c: int)
    requires mid == if f in before then before else before[f := map[]]
    requires prior == if gw in mid[f] then mid[f][gw] else RouteStat(0, 0)
    ensures Bump(before, f, gw, c) == mid[f := mid[f][gw := RouteStat(Wrap64(prior.ips + c), prior.routes + 1)]]
  {
    var x := mid[f][gw := RouteStat(Wrap64(prior.ips + c), prior.routes + 1)];
    if f !in before {
      Override(before, f, map[], x);
    }
  }

  lemma ContributionIs(r: Route, ones: int, bits: int)
    requires Kept(r) && (ones, bits) == MaskSize(r.dst.value.mask)
    ensures Contribution(r) == ShiftOne(bits - ones - Offset(r.gw.value))
  {
  }

  /** Setting a key twice keeps the second value only. */
  lemma Override(rs: map<string, map<string, RouteStat>>, f: string, a: map<string, RouteStat>, b: map<string, RouteStat>)
    ensures rs[f := a][f := b] == rs[f := b]
  {
  }

  /** An IPv4 /24 adds 256 addresses. */
  lemma IPv4Slash24(gw: IP, dst: IP)
    requires To4(gw).Some? && !IsZero(gw) && !IsZero(dst)
    ensures Contribution(Route(Some(gw), Some(IPNet(dst, CIDRMask(24, 4))))) == 256
  {
    MaskSizeOfCIDR(24, 4);
    assert Pow2(8) == 256;
  }

  /** An IPv6 /64 through an IPv6 gateway adds one /64 network. */
  lemma IPv6Slash64(gw: IP, dst: IP)
    requires To4(gw).None? && !IsZero(gw) && !IsZero(dst)
    ensures Contribution(Route(Some(gw), Some(IPNet(dst, CIDRMask(64, 16))))) == 1
  {
    MaskSizeOfCIDR(64, 16);
  }

  /** An IPv4 destination through an IPv6 gateway shifts by a negative count and adds nothing. */
  lemma IPv4ViaIPv6Gateway(gw: IP, dst: IP, ones: nat)
    requires To4(gw).None? && !IsZero(gw) && !IsZero(dst) && ones <= 32
    ensures Contribution(Route(Some(gw), Some(IPNet(dst, CIDRMask(ones, 4))))) == 0
  {
    MaskSizeOfCIDR(ones, 4);
  }

  const TOTAL := "routes.total"
  const ROUTES_PER_GW := "routes.route_per_gw"
  const IPS_PER_GW := "routes.ip_per_gw"
  const NETS64_PER_GW := "routes.64s_per_gw"

  /** The tags of one bucket's points. */
  function GatewayTags(f: string, gw: string): Tags {
    map["family" := f, "gateway" := gw]
  }

  /** The shared tag map of the emission loops holds at most a family and a gateway. */
  predicate EmitTags(t: Tags) {
    t.Keys <= {"family", "gateway"}
  }

  /** ... and, inside the loop over the gateways of family `f`, that family. */
  predicate FamilyTags(t: Tags, f: string) {
    EmitTags(t) && "family" in t && t["family"] == f
  }

  /** `t["family"] = f`: the gateway left over from the previous family stays until overwritten. */
  lemma SetFamily(t: Tags, f: string)
    requires EmitTags(t)
    ensures FamilyTags(t["family" := f], f)
  {
  }

  /** `t["gateway"] = gw` inside family `f`: the map is then exactly the bucket's tags. */
  lemma SetGateway(t: Tags, f: string, gw: string)
    requires FamilyTags(t, f)
    ensures t["gateway" := gw] == GatewayTags(f, gw)
    ensures FamilyTags(GatewayTags(f, gw), f)
  {
    assert "family" != "gateway";
  }

  /** The `ipm` closure: IPv6 gateways count /64 networks, all others count addresses. */
  function IpPoint(f: string, ips: int, t: Tags): Point {
    if f == "IPv6" then Add(NETS64_PER_GW, IntVal(ips), t, Gauge, Named("64-bit networks"))
    else Add(IPS_PER_GW, IntVal(ips), t, Gauge, Named("ip addresses"))
  }

  /** The two points one bucket adds, under tags `t`: its route count, then `ipm`. */
  function BucketPoints(f: string, st: RouteStat, t: Tags): multiset<Point> {
    multiset{Add(ROUTES_PER_GW, IntVal(st.routes), t, Gauge, Named("routes")), IpPoint(f, st.ips, t)}
  }

  /**
   * A bucket emits exactly two points, both tagged with its family and gateway: its route
   * count as `routes.route_per_gw`, and its address space as `routes.ip_per_gw` (IPv4) or
   * `routes.64s_per_gw` (IPv6).
   */
  lemma BucketPointsShape(f: string, gw: string, st: RouteStat)
    ensures |BucketPoints(f, st, GatewayTags(f, gw))| == 2
    ensures forall p :: p in BucketPoints(f, st, GatewayTags(f, gw)) ==>
      p.tags == map["family" := f, "gateway" := gw] && p.rate == Gauge && p.timestamp.None?
    ensures forall p :: p in BucketPoints(f, st, GatewayTags(f, gw)) ==>
      (p.metric == ROUTES_PER_GW && p.value == IntVal(st.routes)) ||
      (p.metric == (if f == "IPv6" then NETS64_PER_GW else IPS_PER_GW) && p.value == IntVal(st.ips))
    ensures Add(ROUTES_PER_GW, IntVal(st.routes), GatewayTags(f, gw), Gauge, Named("routes"))
            in BucketPoints(f, st, GatewayTags(f, gw))
    ensures exists p :: p in BucketPoints(f, st, GatewayTags(f, gw)) &&
                         p.metric == (if f == "IPv6" then NETS64_PER_GW else IPS_PER_GW) &&
                         p.value == IntVal(st.ips)
  {
    var p := IpPoint(f, st.ips, GatewayTags(f, gw));
    assert p in BucketPoints(f, st, GatewayTags(f, gw));
  }

  function GatewayFn(f: string, m: map<string, RouteStat>): string -> multiset<Point> {
    gw => if gw in m then BucketPoints(f, m[gw], GatewayTags(f, gw)) else multiset{}
  }

  ghost function FamilyFn(rs: map<string, map<string, RouteStat>>): string -> multiset<Point> {
    f => if f in rs then Union(rs[f].Keys, GatewayFn(f, rs[f])) else multiset{}
  }

  lemma GatewayFnAt(f: string, m: map<string, RouteStat>, gw: string)
    requires gw in m
    ensures GatewayFn(f, m)(gw) == BucketPoints(f, m[gw], GatewayTags(f, gw))
  {
  }

  lemma FamilyFnAt(rs: map<string, map<string, RouteStat>>, f: string)
    requires f in rs
    ensures FamilyFn(rs)(f) == Union(rs[f].Keys, GatewayFn(f, rs[f]))
  {
  }

  /** Every bucket's points, in whatever order the two map loops visit them. */
  ghost function BucketsPoints(rs: map<string, map<string, RouteStat>>): multiset<Point> {
    Union(rs.Keys, FamilyFn(rs))
  }

  /** The inner emission loop, over the gateways of one family. */
  method EmitFamily(f: string, m: map<string, RouteStat>, t0: Tags) returns (md: seq<Point>, t: Tags)
    requires FamilyTags(t0, f)
    ensures multiset(md) == Union(m.Keys, GatewayFn(f, m))
    ensures FamilyTags(t, f)
  {
    ghost var g := GatewayFn(f, m);
    md := [];
    t := t0;
    var todo := m.Keys;
    while todo != {}
      invariant todo <= m.Keys
      invariant multiset(md) + Union(todo, g) == Union(m.Keys, g)
      invariant FamilyTags(t, f)
      decreases todo
    {
      var gw :| gw in todo;
      SetGateway(t, f, gw);
      t := t["gateway" := gw];
      GatewayFnAt(f, m, gw);
      var pts := [Add(ROUTES_PER_GW, IntVal(m[gw].routes), t, Gauge, Named("routes")), IpPoint(f, m[gw].ips, t)];
      assert multiset(pts) == BucketPoints(f, m[gw], t);
      UnionStep(m.Keys, todo, g, gw, multiset(md), multiset(pts));
      md := md + pts;
      todo := todo - {gw};
    }
  }

  /** The emission loops of c_routeCount, sharing one tag map across families and gateways. */
  method Emit(rs: map<string, map<string, RouteStat>>) returns (md: seq<Point>)
    ensures multiset(md) == BucketsPoints(rs)
  {
    ghost var h := FamilyFn(rs);
    md := [];
    var t: Tags := map[];
    var todo := rs.Keys;
    while todo != {}
      invariant todo <= rs.Keys
      invariant multiset(md) + Union(todo, h) == Union(rs.Keys, h)
      invariant EmitTags(t)
      decreases todo
    {
      var f :| f in todo;
      SetFamily(t, f);
      t := t["family" := f];
      var pts;
      pts, t := EmitFamily(f, rs[f], t);
      FamilyFnAt(rs, f);
      UnionStep(rs.Keys, todo, h, f, multiset(md), multiset(pts));
      md := md + pts;
      todo := todo - {f};
    }
  }

  /** c_routeCount after netlink.RouteList succeeded: the total, then the per-gateway points. */
  method Collect(routes: seq<Route>, show: IP -> string) returns (md: seq<Point>)
    ensures |md| >= 1 && md[0] == Add(TOTAL, IntVal(|routes|), map[], Gauge, Named("routes"))
    ensures multiset(md[1..]) == BucketsPoints(Stats(routes, show))
  {
    md := [Add(TOTAL, IntVal(|routes|), map[], Gauge, Named("routes"))];
    var rs := Aggregate(routes, show);
    var pts := Emit(rs);
    md := md + pts;
    assert md[1..] == pts;
  }
}
