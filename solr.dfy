/**
 * The Solr collector: it reads Solr's metrics API, a three-level JSON object (group, category,
 * metric), and reports every numeric leaf as `<group>.<category>.<metric>`, with slashes made
 * underscores. The groups of individual cores are folded into one `solr.core` group with a
 * `core` tag which, as the collector computes it, is `solr.core` for every core (`Group` is the
 * grouping that tags each core with its own name).
 */
module Solr {
  import opened Optional
  import opened Metrics
  import opened GoStrings
  import opened Bags

  /** The decoded `metrics` object: group -> category -> metric -> value. */
  type SolrMetrics = map<string, map<string, map<string, Json>>>

  const METRICS_PATH := "/solr/admin/metrics?wt=json&type=all"
  const DEFAULT_HOST := "localhost:8080"
  const CORE_PREFIX := "solr.core."
  const CORE_GROUP := "solr.core"

  /** The metrics URL: the configured host, or localhost:8080, in front of the API path. */
  function MetricsURL(host: string): (url: string)
    ensures HasSuffix(url, METRICS_PATH)
    ensures url[..|url| - |METRICS_PATH|] == "http://" + (if host == "" then DEFAULT_HOST else host)
  {
    var url := "http://" + (if host == "" then DEFAULT_HOST else host) + METRICS_PATH;
    url
  }

  /**
   * The `core` tag as c_solr_metrics computes it: `k1` has already been overwritten with
   * "solr.core" when the prefix is stripped from it.
   */
  function CoreTagAsWritten(k1: string): string {
    ReplaceFirst(CORE_GROUP, CORE_PREFIX, "")
  }

  /** As written, every core is tagged `core=solr.core`, whatever its name. */
  lemma CoreTagAsWrittenConstant(k1: string)
    ensures CoreTagAsWritten(k1) == "solr.core"
  {
    forall i | 0 <= i <= |CORE_GROUP| ensures !OccursAt(CORE_GROUP, CORE_PREFIX, i) {
    }
    ReplaceFirstAbsent(CORE_GROUP, CORE_PREFIX, "");
  }

  /**
   * The group and tags c_solr_metrics gives a top-level key: a core's key becomes the group
   * `solr.core`, tagged with the `core` tag computed from the overwritten key.
   */
  function GroupAsWritten(k1: string): (g: (string, Tags))
    ensures HasPrefix(k1, CORE_PREFIX) ==> g == (CORE_GROUP, map["core" := "solr.core"])
    ensures !HasPrefix(k1, CORE_PREFIX) ==> g == (k1, map[])
  {
    if HasPrefix(k1, CORE_PREFIX) then
      CoreTagAsWrittenConstant(k1);
      (CORE_GROUP, map["core" := CoreTagAsWritten(k1)])
    else
      (k1, map[])
  }

  /**
   * The metric group and tags of a top-level key: a core's key `solr.core.<name>` becomes the
   * group `solr.core` tagged with the core's name; any other key is its own group, untagged.
   */
  function Group(k1: string): (g: (string, Tags))
    ensures HasPrefix(k1, CORE_PREFIX) ==> g.0 == CORE_GROUP && g.1.Keys == {"core"} && CORE_PREFIX + g.1["core"] == k1
    ensures !HasPrefix(k1, CORE_PREFIX) ==> g == (k1, map[])
  {
    if HasPrefix(k1, CORE_PREFIX) then
      ReplaceFirstAtStart(k1, CORE_PREFIX, "");
      assert k1 == CORE_PREFIX + k1[|CORE_PREFIX|..];
      (CORE_GROUP, map["core" := ReplaceFirst(k1, CORE_PREFIX, "")])
    else
      (k1, map[])
  }

  const RATE_SUFFIX := "Rate"
  const MS_SUFFIX := "_ms"

  /**
   * addSolrMetric: slashes in the name become underscores; a name ending in `Rate`, a value
   * that is not a number, or one above 2^63 adds nothing; the name `count` is a counter and a
   * name ending in `_ms` is in milliseconds.
   */
  function SolrPoint(m: string, t: Tags, v: Json): (r: Option<Point>)
    ensures r.Some? <==>
      !HasSuffix(ReplaceAll(m, "/", "_"), RATE_SUFFIX) && v.JNumber? && v.x <= MAX_INT64_AS_FLOAT
    ensures r.Some? ==>
      r.value.metric == ReplaceAll(m, "/", "_") && r.value.value == RealVal(v.x) && r.value.tags == t &&
      r.value.timestamp.None? &&
      (r.value.rate == (if r.value.metric == "count" then Counter else Unknown)) &&
      (r.value.unit == (if HasSuffix(r.value.metric, MS_SUFFIX) then MilliSecond else NoUnit))
  {
    var name := ReplaceAll(m, "/", "_");
    if HasSuffix(name, RATE_SUFFIX) then None
    else if !v.JNumber? || v.x > MAX_INT64_AS_FLOAT then None
    else
      var rt := if name == "count" then Counter else Unknown;
      var ut := if HasSuffix(name, MS_SUFFIX) then MilliSecond else NoUnit;
      Some(Add(name, RealVal(v.x), t, rt, ut))
  }

  /** The name c_solr_metrics passes for one leaf: the three keys joined with dots. */
  function MetricName(group: string, k2: string, k3: string): string {
    Join([group, k2, k3], ".")
  }

  function Bag(r: Option<Point>): multiset<Point> {
    if r.Some? then multiset{r.value} else multiset{}
  }

  function LeafFn(v2: map<string, Json>, g: (string, Tags), k2: string): string -> multiset<Point> {
    k3 => if k3 in v2 then Bag(SolrPoint(MetricName(g.0, k2, k3), g.1, v2[k3])) else multiset{}
  }

  ghost function CategoryFn(v1: map<string, map<string, Json>>, g: (string, Tags)): string -> multiset<Point> {
    k2 => if k2 in v1 then Union(v1[k2].Keys, LeafFn(v1[k2], g, k2)) else multiset{}
  }

  ghost function GroupFn(sm: SolrMetrics, grp: string -> (string, Tags)): string -> multiset<Point> {
    k1 => if k1 in sm then Union(sm[k1].Keys, CategoryFn(sm[k1], grp(k1))) else multiset{}
  }

  /**
   * Every point of one response when the top-level keys are grouped by `grp`, in whatever
   * order the three map loops visit the keys.
   */
  ghost function SolrPoints(sm: SolrMetrics, grp: string -> (string, Tags)): multiset<Point> {
    Union(sm.Keys, GroupFn(sm, grp))
  }

  lemma LeafFnAt(v2: map<string, Json>, g: (string, Tags), k2: string, k3: string)
    requires k3 in v2
    ensures LeafFn(v2, g, k2)(k3) == Bag(SolrPoint(MetricName(g.0, k2, k3), g.1, v2[k3]))
  {
  }

  lemma CategoryFnAt(v1: map<string, map<string, Json>>, g: (string, Tags), k2: string)
    requires k2 in v1
    ensures CategoryFn(v1, g)(k2) == Union(v1[k2].Keys, LeafFn(v1[k2], g, k2))
  {
  }

  lemma GroupFnAt(sm: SolrMetrics, grp: string -> (string, Tags), k1: string)
    requires k1 in sm
    ensures GroupFn(sm, grp)(k1) == Union(sm[k1].Keys, CategoryFn(sm[k1], grp(k1)))
  {
  }

  /** A leaf's point, if the metric it is under is reported. */
  predicate Emits(v2: map<string, Json>, g: (string, Tags), k2: string, k3: string, p: Point) {
    k3 in v2 && SolrPoint(MetricName(g.0, k2, k3), g.1, v2[k3]) == Some(p)
  }

  lemma {:induction false} LeavesMember(v2: map<string, Json>, g: (string, Tags), k2: string, p: Point)
    ensures p in Union(v2.Keys, LeafFn(v2, g, k2)) <==> exists k3 :: Emits(v2, g, k2, k3, p)
  {
    UnionMember(v2.Keys, LeafFn(v2, g, k2), p);
    if p in Union(v2.Keys, LeafFn(v2, g, k2)) {
      var k3 :| k3 in v2.Keys && p in LeafFn(v2, g, k2)(k3);
      LeafFnAt(v2, g, k2, k3);
      assert Emits(v2, g, k2, k3, p);
    }
    if exists k3 :: Emits(v2, g, k2, k3, p) {
      var k3 :| Emits(v2, g, k2, k3, p);
      LeafFnAt(v2, g, k2, k3);
    }
  }

  lemma {:induction false} CategoriesMember(v1: map<string, map<string, Json>>, g: (string, Tags), p: Point)
    ensures p in Union(v1.Keys, CategoryFn(v1, g)) <==>
      exists k2, k3 :: k2 in v1 && Emits(v1[k2], g, k2, k3, p)
  {
    UnionMember(v1.Keys, CategoryFn(v1, g), p);
    if p in Union(v1.Keys, CategoryFn(v1, g)) {
      var k2 :| k2 in v1.Keys && p in CategoryFn(v1, g)(k2);
      CategoryFnAt(v1, g, k2);
      LeavesMember(v1[k2], g, k2, p);
    }
    if exists k2, k3 :: k2 in v1 && Emits(v1[k2], g, k2, k3, p) {
      var k2, k3 :| k2 in v1 && Emits(v1[k2], g, k2, k3, p);
      CategoryFnAt(v1, g, k2);
      LeavesMember(v1[k2], g, k2, p);
    }
  }

  /**
   * A point is reported exactly when some group, category and metric of the response yields
   * it: nothing is lost and nothing is made up by the three loops.
   */
  lemma {:induction false} SolrPointsMember(sm: SolrMetrics, grp: string -> (string, Tags), p: Point)
    ensures p in SolrPoints(sm, grp) <==>
      exists k1, k2, k3 :: k1 in sm && k2 in sm[k1] && Emits(sm[k1][k2], grp(k1), k2, k3, p)
  {
    UnionMember(sm.Keys, GroupFn(sm, grp), p);
    if p in SolrPoints(sm, grp) {
      var k1 :| k1 in sm.Keys && p in GroupFn(sm, grp)(k1);
      GroupFnAt(sm, grp, k1);
      CategoriesMember(sm[k1], grp(k1), p);
    }
    if exists k1, k2, k3 :: k1 in sm && k2 in sm[k1] && Emits(sm[k1][k2], grp(k1), k2, k3, p) {
      var k1, k2, k3 :| k1 in sm && k2 in sm[k1] && Emits(sm[k1][k2], grp(k1), k2, k3, p);
      GroupFnAt(sm, grp, k1);
      CategoriesMember(sm[k1], grp(k1), p);
    }
  }

  /**
   * As the collector is written, every point that has a `core` tag has the tag `solr.core`,
   * whichever core it comes from, and comes from some core's key.
   */
  lemma CoreTagAsWrittenInPoints(sm: SolrMetrics, p: Point)
    requires p in SolrPoints(sm, GroupAsWritten)
    ensures "core" in p.tags ==>
      p.tags == map["core" := "solr.core"] && exists k1 :: k1 in sm && HasPrefix(k1, CORE_PREFIX)
  {
    SolrPointsMember(sm, GroupAsWritten, p);
    var k1, k2, k3 :| k1 in sm && k2 in sm[k1] && Emits(sm[k1][k2], GroupAsWritten(k1), k2, k3, p);
  }

  /**
   * Grouped by `Group`, the `core` tag of a point names its core: the key of that core is in
   * the response.
   */
  lemma CoreTagNamesCore(sm: SolrMetrics, p: Point)
    requires p in SolrPoints(sm, Group)
    ensures "core" in p.tags ==> p.tags.Keys == {"core"} && CORE_PREFIX + p.tags["core"] in sm
  {
    SolrPointsMember(sm, Group, p);
    var k1, k2, k3 :| k1 in sm && k2 in sm[k1] && Emits(sm[k1][k2], Group(k1), k2, k3, p);
  }

  /** The reported name never holds a slash, and keeps every other character of the joined keys. */
  lemma SlashFree(m: string)
    ensures |ReplaceAll(m, "/", "_")| == |m|
    ensures forall k :: 0 <= k < |m| ==> ReplaceAll(m, "/", "_")[k] == (if m[k] == '/' then '_' else m[k])
    ensures '/' !in ReplaceAll(m, "/", "_")
  {
    ReplaceAllChar(m, '/', '_');
  }

  /**
   * The joined name always holds the dots between the three keys, so it is never `count`:
   * no Solr point is ever typed as a counter.
   */
  lemma NeverCounter(group: string, k2: string, k3: string, t: Tags, v: Json)
    ensures SolrPoint(MetricName(group, k2, k3), t, v).Some? ==>
      SolrPoint(MetricName(group, k2, k3), t, v).value.rate == Unknown
  {
    var m := MetricName(group, k2, k3);
    JoinThree(group, k2, k3, ".");
    assert m[|group|] == '.';
    SlashFree(m);
    var name := ReplaceAll(m, "/", "_");
    assert name[|group|] == '.';
    assert '.' !in "count";
  }

  /**
   * Every point of a response is a numeric value of at most 2^63 whose name has no slash and
   * no `Rate` suffix, typed Unknown; it is tagged with its core when (and only when) its
   * group is `solr.core`, and untagged otherwise.
   */
  lemma SolrPointsShape(sm: SolrMetrics, grp: string -> (string, Tags), p: Point)
    requires forall k1 :: grp(k1).1 == map[] || grp(k1).1.Keys == {"core"}
    requires p in SolrPoints(sm, grp)
    ensures '/' !in p.metric && !HasSuffix(p.metric, RATE_SUFFIX)
    ensures p.value.RealVal? && p.value.r <= MAX_INT64_AS_FLOAT
    ensures p.rate == Unknown && p.timestamp.None?
    ensures p.unit == (if HasSuffix(p.metric, MS_SUFFIX) then MilliSecond else NoUnit)
    ensures p.tags == map[] || p.tags.Keys == {"core"}
  {
    SolrPointsMember(sm, grp, p);
    var k1, k2, k3 :| k1 in sm && k2 in sm[k1] && Emits(sm[k1][k2], grp(k1), k2, k3, p);
    SlashFree(MetricName(grp(k1).0, k2, k3));
    NeverCounter(grp(k1).0, k2, k3, grp(k1).1, sm[k1][k2][k3]);
  }

  /** The innermost loop, over the metrics of one category. */
  method AddLeaves(v2: map<string, Json>, g: (string, Tags), k2: string) returns (md: multiset<Point>)
    ensures md == Union(v2.Keys, LeafFn(v2, g, k2))
  {
    ghost var f := LeafFn(v2, g, k2);
    md := multiset{};
    var todo := v2.Keys;
    while todo != {}
      invariant todo <= v2.Keys
      invariant md + Union(todo, f) == Union(v2.Keys, f)
      decreases todo
    {
      var k3 :| k3 in todo;
      var pt := SolrPoint(MetricName(g.0, k2, k3), g.1, v2[k3]);
      LeafFnAt(v2, g, k2, k3);
      UnionStep(v2.Keys, todo, f, k3, md, Bag(pt));
      md := md + Bag(pt);
      todo := todo - {k3};
    }
  }

  /** The middle loop, over the categories of one group. */
  method AddCategories(v1: map<string, map<string, Json>>, g: (string, Tags)) returns (md: multiset<Point>)
    ensures md == Union(v1.Keys, CategoryFn(v1, g))
  {
    ghost var f := CategoryFn(v1, g);
    md := multiset{};
    var todo := v1.Keys;
    while todo != {}
      invariant todo <= v1.Keys
      invariant md + Union(todo, f) == Union(v1.Keys, f)
      decreases todo
    {
      var k2 :| k2 in todo;
      var pts := AddLeaves(v1[k2], g, k2);
      CategoryFnAt(v1, g, k2);
      UnionStep(v1.Keys, todo, f, k2, md, pts);
      md := md + pts;
      todo := todo - {k2};
    }
  }

  /** The outer loop, over the groups of one response, grouping each key by `grp`. */
  method AddGroups(sm: SolrMetrics, grp: string -> (string, Tags)) returns (md: multiset<Point>)
    ensures md == SolrPoints(sm, grp)
  {
    ghost var f := GroupFn(sm, grp);
    md := multiset{};
    var todo := sm.Keys;
    while todo != {}
      invariant todo <= sm.Keys
      invariant md + Union(todo, f) == Union(sm.Keys, f)
      decreases todo
    {
      var k1 :| k1 in todo;
      var pts := AddCategories(sm[k1], grp(k1));
      GroupFnAt(sm, grp, k1);
      UnionStep(sm.Keys, todo, f, k1, md, pts);
      md := md + pts;
      todo := todo - {k1};
    }
  }

  /**
   * c_solr_metrics after the response was fetched and decoded (None: the request or the
   * decoding failed, and the collector reports the error and no points). The keys are grouped
   * as the collector is written, so every core's points are tagged `core=solr.core`.
   */
  method Collect(response: Option<SolrMetrics>) returns (md: multiset<Point>, ok: bool)
    ensures ok <==> response.Some?
    ensures md == (if ok then SolrPoints(response.value, GroupAsWritten) else multiset{})
  {
    if response.None? {
      return multiset{}, false;
    }
    md := AddGroups(response.value, GroupAsWritten);
    ok := true;
  }
}
