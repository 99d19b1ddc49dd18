/**
 * The Graylog collector: for every node of the Graylog cluster it reads three metric
 * namespaces (cluster, org, jvm) and reports the rate of every metric that has been active,
 * under a name shortened to the metric's first two components and its short name.
 */
module Graylog {
  import opened Optional
  import opened Metrics
  import opened GoStrings
  import opened Bags

  const DEFAULT_URL := "http://localhost:9000"

  /** The configured Graylog URL, or the default one. */
  function GraylogURL(configured: string): (url: string)
    ensures url != ""
    ensures configured != "" ==> url == configured
    ensures configured == "" ==> url == "http://localhost:9000"
  {
    if configured != "" then configured else DEFAULT_URL
  }

  /** One entry of a metrics response: its names, type, `time.max` and `rate.total`. */
  datatype Metric = Metric(fullName: string, name: string, typ: string, timeMax: real, rateTotal: real)

  /** The three namespace URLs of node `c`, in the order they are read. */
  function NamespaceURLs(url: string, c: string): (us: seq<string>)
    ensures |us| == 3
    ensures forall k :: 0 <= k < 3 ==> HasPrefix(us[k], url + "/api/cluster/" + c + "/metrics/namespace/")
    ensures var base := url + "/api/cluster/" + c + "/metrics/namespace/";
      us[0] == base + "cluster" && us[1] == base + "org" && us[2] == base + "jvm"
    ensures forall i, j :: 0 <= i < j < 3 ==> us[i] != us[j]
  {
    var base := url + "/api/cluster/" + c + "/metrics/namespace/";
    var us := [base + "cluster", base + "org", base + "jvm"];
    assert forall k :: 0 <= k < 3 ==> us[k][..|base|] == base;
    assert us[1][|base|] == 'o' && us[2][|base|] == 'j';
    assert |us[0]| != |us[1]| && |us[0]| != |us[2]|;
    us
  }

  /**
   * The reported name: a full name of more than three dot-separated components is shortened
   * to its first two components followed by the metric's short name.
   */
  function ShortName(fullName: string, name: string): string {
    var parts := Split(fullName, ".");
    if |parts| > 3 then Join(parts[..2] + [name], ".") else fullName
  }

  /**
   * A shortened name keeps the full name's text up to its second dot and puts the short name
   * after it; any other name is the full name itself.
   */
  lemma ShortNameMeaning(fullName: string, name: string)
    ensures |Split(fullName, ".")| <= 3 ==> ShortName(fullName, name) == fullName
    ensures |Split(fullName, ".")| > 3 ==>
      var parts := Split(fullName, ".");
      var head := parts[0] + "." + parts[1] + ".";
      HasPrefix(fullName, head) && ShortName(fullName, name) == head + name &&
      !Contains(parts[0], ".") && !Contains(parts[1], ".")
  {
    var parts := Split(fullName, ".");
    if |parts| > 3 {
      var p0, p1 := parts[0], parts[1];
      var head := p0 + "." + p1 + ".";
      assert ShortName(fullName, name) == head + name by {
        var short := parts[..2] + [name];
        assert short == [p0, p1, name];
        JoinThree(p0, p1, name, ".");
      }
      assert HasPrefix(fullName, head) by {
        JoinHead(parts, ".");
        assert fullName == head + Join(parts[2..], ".");
      }
    }
  }

  /** A metric that has neither a rate nor a time is skipped; any other gives one point. */
  function MetricPoint(m: Metric): (r: Option<Point>)
    ensures r.None? <==> m.rateTotal == 0.0 && m.timeMax == 0.0
    ensures r.Some? ==> r.value.value == RealVal(m.rateTotal)
    ensures r.Some? ==> r.value.tags == map["full_name" := m.fullName, "type" := m.typ]
    ensures r.Some? ==> r.value.rate == Unknown && r.value.unit == NoUnit && r.value.timestamp.None?
  {
    if m.rateTotal == 0.0 && m.timeMax == 0.0 then None
    else
      var t := map["full_name" := m.fullName, "type" := m.typ];
      Some(Add("graylog." + ShortName(m.fullName, m.name), RealVal(m.rateTotal), t, Unknown, NoUnit))
  }

  /** A reported metric is named `graylog.` followed by its (possibly shortened) full name. */
  lemma MetricPointName(m: Metric)
    requires MetricPoint(m).Some?
    ensures MetricPoint(m).value.metric == "graylog." + ShortName(m.fullName, m.name)
  {
  }

  /** The points of one namespace's metrics, in order. */
  function NamespacePoints(ms: seq<Metric>): (pts: seq<Point>)
    ensures |pts| <= |ms|
    decreases |ms|
  {
    if ms == [] then []
    else
      var prior := NamespacePoints(ms[..|ms| - 1]);
      var r := MetricPoint(ms[|ms| - 1]);
      if r.Some? then prior + [r.value] else prior
  }

  /** The metric at index `k` of `ms` yields the point `p`. */
  predicate Yields(ms: seq<Metric>, k: int, p: Point) {
    0 <= k < |ms| && MetricPoint(ms[k]) == Some(p)
  }

  /** A point is reported for a namespace exactly when one of its metrics yields it. */
  lemma NamespacePointsMember(ms: seq<Metric>, p: Point)
    ensures p in NamespacePoints(ms) <==> exists k :: Yields(ms, k, p)
  {
    if p in NamespacePoints(ms) {
      NamespacePointsSound(ms, p);
    }
    if exists k :: Yields(ms, k, p) {
      var k :| Yields(ms, k, p);
      NamespacePointsComplete(ms, k, p);
    }
  }

  /** Every reported point is yielded by one of the namespace's metrics. */
  lemma {:induction false} NamespacePointsSound(ms: seq<Metric>, p: Point)
    requires p in NamespacePoints(ms)
    ensures exists k :: Yields(ms, k, p)
    decreases |ms|
  {
    var init := ms[..|ms| - 1];
    var last := |ms| - 1;
    if p in NamespacePoints(init) {
      NamespacePointsSound(init, p);
      var k :| Yields(init, k, p);
      assert ms[k] == init[k];
      assert Yields(ms, k, p);
    } else {
      assert MetricPoint(ms[last]) == Some(p);
      assert Yields(ms, last, p);
    }
  }

  /** Every point a metric of the namespace yields is reported. */
  lemma {:induction false} NamespacePointsComplete(ms: seq<Metric>, k: int, p: Point)
    requires Yields(ms, k, p)
    ensures p in NamespacePoints(ms)
    decreases |ms|
  {
    var init := ms[..|ms| - 1];
    if k < |ms| - 1 {
      assert init[k] == ms[k];
      NamespacePointsComplete(init, k, p);
    }
  }

  /** The loop over the metrics of one namespace. */
  method AddMetrics(ms: seq<Metric>) returns (pts: seq<Point>)
    ensures pts == NamespacePoints(ms)
  {
    pts := [];
    for i := 0 to |ms|
      invariant pts == NamespacePoints(ms[..i])
    {
      assert ms[..i + 1][..i] == ms[..i];
      var m := ms[i];
      if m.rateTotal == 0.0 && m.timeMax == 0.0 {
        continue;
      }
      var t := map["full_name" := m.fullName, "type" := m.typ];
      var n := m.fullName;
      if |Split(m.fullName, ".")| > 3 {
        n := Join(Split(m.fullName, ".")[..2] + [m.name], ".");
      }
      pts := pts + [Add("graylog." + n, RealVal(m.rateTotal), t, Unknown, NoUnit)];
    }
    assert ms[..|ms|] == ms;
  }

  /** What one fetched namespace contributes; one that could not be read contributes nothing. */
  function Fetched(r: Option<seq<Metric>>): seq<Point> {
    if r.Some? then NamespacePoints(r.value) else []
  }

  /** The points of the first `i` namespaces of node `c`, in order, as far as they can be read. */
  function Gathered(url: string, c: string, fetch: string -> Option<seq<Metric>>, i: nat): seq<Point>
    requires i <= 3
  {
    if i == 0 then [] else Gathered(url, c, fetch, i - 1) + Fetched(fetch(NamespaceURLs(url, c)[i - 1]))
  }

  /** The points of node `c`'s three namespaces. */
  function NodePoints(url: string, c: string, fetch: string -> Option<seq<Metric>>): seq<Point> {
    Gathered(url, c, fetch, 3)
  }

  /** What the first namespaces give comes first in what all of them give. */
  lemma {:induction false} GatheredPrefix(url: string, c: string, fetch: string -> Option<seq<Metric>>, i: nat)
    requires i <= 3
    ensures Gathered(url, c, fetch, i) <= NodePoints(url, c, fetch)
    decreases 3 - i
  {
    if i < 3 {
      GatheredPrefix(url, c, fetch, i + 1);
    }
  }

  /** All three namespaces of node `c` can be read. */
  predicate NodeReadable(url: string, c: string, fetch: string -> Option<seq<Metric>>) {
    forall k :: 0 <= k < 3 ==> fetch(NamespaceURLs(url, c)[k]).Some?
  }

  /**
   * The namespace loop for node `c`: it stops at the first namespace that cannot be read,
   * keeping what the earlier ones gave.
   */
  method AddNode(url: string, c: string, fetch: string -> Option<seq<Metric>>) returns (pts: seq<Point>, ok: bool)
    ensures ok <==> NodeReadable(url, c, fetch)
    ensures ok ==> pts == NodePoints(url, c, fetch)
    ensures pts <= NodePoints(url, c, fetch)
  {
    var us := NamespaceURLs(url, c);
    pts := [];
    for i := 0 to 3
      invariant forall k :: 0 <= k < i ==> fetch(us[k]).Some?
      invariant pts == Gathered(url, c, fetch, i)
    {
      var r := fetch(us[i]);
      if r.None? {
        GatheredPrefix(url, c, fetch, i);
        return pts, false;
      }
      var got := AddMetrics(r.value);
      pts := pts + got;
    }
    ok := true;
  }

  function NodeFn(url: string, fetch: string -> Option<seq<Metric>>): string -> multiset<Point> {
    c => multiset(NodePoints(url, c, fetch))
  }

  /** The points of every node of the cluster, in whatever order the node loop visits them. */
  ghost function GraylogPoints(url: string, nodes: set<string>, fetch: string -> Option<seq<Metric>>): multiset<Point> {
    Union(nodes, NodeFn(url, fetch))
  }

  /**
   * The form of every Graylog point: a `graylog.` name, the metric's rate as its value, tagged
   * with exactly the metric's full name and type.
   */
  predicate Shaped(p: Point) {
    HasPrefix(p.metric, "graylog.") && p.value.RealVal? && p.tags.Keys == {"full_name", "type"} &&
    p.rate == Unknown && p.unit == NoUnit
  }

  lemma {:induction false} NamespaceShaped(ms: seq<Metric>)
    ensures forall p :: p in NamespacePoints(ms) ==> Shaped(p)
    decreases |ms|
  {
    if ms != [] {
      NamespaceShaped(ms[..|ms| - 1]);
      var m := ms[|ms| - 1];
      if MetricPoint(m).Some? {
        MetricPointName(m);
      }
    }
  }

  lemma {:induction false} GatheredShaped(url: string, c: string, fetch: string -> Option<seq<Metric>>, i: nat)
    requires i <= 3
    ensures forall p :: p in Gathered(url, c, fetch, i) ==> Shaped(p)
  {
    if i > 0 {
      GatheredShaped(url, c, fetch, i - 1);
      var r := fetch(NamespaceURLs(url, c)[i - 1]);
      if r.Some? {
        NamespaceShaped(r.value);
      }
    }
  }

  /** Every point the collector can report has the Graylog form. */
  lemma GraylogPointsShape(url: string, nodes: set<string>, fetch: string -> Option<seq<Metric>>, p: Point)
    requires p in GraylogPoints(url, nodes, fetch)
    ensures Shaped(p)
  {
    UnionMember(nodes, NodeFn(url, fetch), p);
    var c :| c in nodes && p in NodeFn(url, fetch)(c);
    GatheredShaped(url, c, fetch, 3);
  }

  /** A prefix of a sequence has no more of any element than the whole. */
  lemma PrefixBag(pts: seq<Point>, whole: seq<Point>)
    requires pts <= whole
    ensures multiset(pts) <= multiset(whole)
  {
    assert whole == pts + whole[|pts|..];
  }

  /**
   * The node loop: it stops at the first node with a namespace that cannot be read, keeping
   * what it gathered so far.
   */
  method AddNodes(url: string, cl: set<string>, fetch: string -> Option<seq<Metric>>)
    returns (md: multiset<Point>, ok: bool)
    ensures ok <==> forall c :: c in cl ==> NodeReadable(url, c, fetch)
    ensures md <= GraylogPoints(url, cl, fetch)
    ensures ok ==> md == GraylogPoints(url, cl, fetch)
  {
    md := multiset{};
    ghost var f := NodeFn(url, fetch);
    var todo := cl;
    while todo != {}
      invariant todo <= cl
      invariant md + Union(todo, f) == Union(cl, f)
      invariant forall c :: c in cl - todo ==> NodeReadable(url, c, fetch)
      decreases todo
    {
      var c :| c in todo;
      var pts, readable := AddNode(url, c, fetch);
      if !readable {
        PrefixBag(pts, NodePoints(url, c, fetch));
        UnionPartial(cl, todo, f, c, md, multiset(pts));
        return md + multiset(pts), false;
      }
      UnionStep(cl, todo, f, c, md, multiset(pts));
      md := md + multiset(pts);
      todo := todo - {c};
    }
    UnionEmpty(todo, f);
    ok := true;
  }

  /**
   * c_graylog: `nodes` is the decoded /api/cluster response (None: it could not be read). The
   * collection succeeds exactly when every namespace of every node can be read, and then
   * reports every node's points; when it fails it returns the points gathered so far.
   */
  method Collect(url: string, nodes: Option<set<string>>, fetch: string -> Option<seq<Metric>>)
    returns (md: multiset<Point>, ok: bool)
    ensures ok <==> nodes.Some? && forall c :: c in nodes.value ==> NodeReadable(url, c, fetch)
    ensures nodes.None? ==> md == multiset{}
    ensures nodes.Some? ==> md <= GraylogPoints(url, nodes.value, fetch)
    ensures ok ==> md == GraylogPoints(url, nodes.value, fetch)
  {
    if nodes.None? {
      return multiset{}, false;
    }
    md, ok := AddNodes(url, nodes.value, fetch);
  }
}
