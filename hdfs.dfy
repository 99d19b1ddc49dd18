/**
 * The HDFS collector: it reads the JMX beans of a DataNode or NameNode and reports every
 * numeric attribute of a bean as `hdfs.<service>.<bean>.<attribute>`.
 */
module Hdfs {
  import opened Optional
  import opened Metrics
  import opened GoStrings
  import opened Bags

  /** One JMX bean: its attributes, decoded from JSON. */
  type Bean = map<string, Json>

  const DATANODE_HOST := "localhost:50075"
  const NAMENODE_HOST := "localhost:50070"
  const DATANODE_QUERY := "/jmx?qry=Hadoop:service=DataNode,name=*"
  const NAMENODE_QUERY := "/jmx?qry=Hadoop:service=NameNode,name=*"
  const DATANODE_URL := "http://" + DATANODE_HOST + DATANODE_QUERY
  const NAMENODE_URL := "http://" + NAMENODE_HOST + NAMENODE_QUERY

  /** A default URL with every `defaultHost` replaced by the configured host, if one is configured. */
  function ConfiguredURL(url: string, defaultHost: string, host: string): string
    requires defaultHost != ""
  {
    if host != "" then ReplaceAll(url, defaultHost, host) else url
  }

  /** The DataNode URL: the configured host replaces the default host:port. */
  function DataNodeURL(host: string): string {
    ConfiguredURL(DATANODE_URL, DATANODE_HOST, host)
  }

  /** The NameNode URL as the init function builds it: it looks for the DataNode's host:port. */
  function NameNodeURLAsWritten(host: string): string {
    ConfiguredURL(NAMENODE_URL, DATANODE_HOST, host)
  }

  /** The NameNode URL with its own default host:port replaced. */
  function NameNodeURL(host: string): string {
    ConfiguredURL(NAMENODE_URL, NAMENODE_HOST, host)
  }

  /** The default host:port starts right after the scheme of the DataNode URL. */
  lemma DataNodeHostIndex()
    ensures Index(DATANODE_URL, DATANODE_HOST) == 7
  {
    var s := DATANODE_URL;
    assert |DATANODE_HOST| == 15 && DATANODE_HOST[10] == '5';
    assert s[7..22] == DATANODE_HOST;
    assert OccursAt(s, DATANODE_HOST, 7);
    forall i | 0 <= i < 7 ensures !OccursAt(s, DATANODE_HOST, i) {
      assert s[i + 10] == DATANODE_HOST[i + 3] != '5';
      assert s[i..i + 15][10] == s[i + 10];
    }
  }

  /** ... and likewise in the NameNode URL. */
  lemma NameNodeHostIndex()
    ensures Index(NAMENODE_URL, NAMENODE_HOST) == 7
  {
    var s := NAMENODE_URL;
    assert |NAMENODE_HOST| == 15 && NAMENODE_HOST[13] == '7';
    assert s[7..22] == NAMENODE_HOST;
    assert OccursAt(s, NAMENODE_HOST, 7);
    forall i | 0 <= i < 7 ensures !OccursAt(s, NAMENODE_HOST, i) {
      assert s[i + 13] == NAMENODE_HOST[i + 6] != '7';
      assert s[i..i + 15][13] == s[i + 13];
    }
  }

  /** A configured DataNode host replaces the default host:port. */
  lemma DataNodeHostApplies(host: string)
    ensures DataNodeURL(host) == "http://" + (if host == "" then DATANODE_HOST else host) + DATANODE_QUERY
  {
    if host != "" {
      var s := DATANODE_URL;
      DataNodeHostIndex();
      assert s[..7] == "http://";
      assert s[7 + 15..] == DATANODE_QUERY;
      assert '5' !in DATANODE_QUERY;
      MissingChar(DATANODE_QUERY, DATANODE_HOST, '5');
      ReplaceAllAbsent(DATANODE_QUERY, DATANODE_HOST, host);
      assert ReplaceAll(s, DATANODE_HOST, host) == s[..7] + host + ReplaceAll(s[7 + 15..], DATANODE_HOST, host);
    }
  }

  /**
   * The NameNode URL does not contain the DataNode's host:port, so as written a configured
   * NameNode host leaves the NameNode URL at localhost:50070.
   */
  lemma NameNodeHostIgnored(host: string)
    ensures NameNodeURLAsWritten(host) == NAMENODE_URL
  {
    var s := NAMENODE_URL;
    var head := "http://" + NAMENODE_HOST;
    assert '5' !in NAMENODE_QUERY;
    forall i | 0 <= i <= |s| ensures !OccursAt(s, DATANODE_HOST, i) {
      if i + 15 <= |s| {
        if i == 7 {
          assert s[i..i + 15][14] == s[21] == head[21] != '5';
        } else if i + 10 < 22 {
          assert s[i..i + 15][10] == s[i + 10] == head[i + 10] != '5';
        } else {
          assert s[i..i + 15][10] == s[i + 10] == NAMENODE_QUERY[i + 10 - 22];
        }
      }
    }
    if host != "" {
      ReplaceAllAbsent(s, DATANODE_HOST, host);
    }
  }

  /** A configured NameNode host replaces the NameNode's default host:port. */
  lemma NameNodeHostApplies(host: string)
    ensures NameNodeURL(host) == "http://" + (if host == "" then NAMENODE_HOST else host) + NAMENODE_QUERY
  {
    if host != "" {
      var s := NAMENODE_URL;
      NameNodeHostIndex();
      assert s[..7] == "http://";
      assert s[7 + 15..] == NAMENODE_QUERY;
      assert '7' !in NAMENODE_QUERY;
      MissingChar(NAMENODE_QUERY, NAMENODE_HOST, '7');
      ReplaceAllAbsent(NAMENODE_QUERY, NAMENODE_HOST, host);
      assert ReplaceAll(s, NAMENODE_HOST, host) == s[..7] + host + ReplaceAll(s[7 + 15..], NAMENODE_HOST, host);
    }
  }

  /**
   * The two collectors' URLs as the init function builds them: the DataNode's with its
   * configured host, then the NameNode's, which stays at localhost:50070 whatever is configured.
   */
  function URLs(dataNodeHost: string, nameNodeHost: string): (urls: seq<string>)
    ensures |urls| == 2
    ensures urls[0] == "http://" + (if dataNodeHost == "" then DATANODE_HOST else dataNodeHost) + DATANODE_QUERY
    ensures urls[1] == "http://" + NAMENODE_HOST + NAMENODE_QUERY
  {
    DataNodeHostApplies(dataNodeHost);
    NameNodeHostIgnored(nameNodeHost);
    [DataNodeURL(dataNodeHost), NameNodeURLAsWritten(nameNodeHost)]
  }

  /** `r` is the text of `text` up to (not including) its first comma. */
  predicate UpToComma(text: string, r: string) {
    HasPrefix(text, r) && !Contains(r, ",") && (|r| == |text| || text[|r|] == ',')
  }

  /** strings.SplitN(text, ",", 2)[0] */
  function FirstField(text: string): (r: string)
    ensures UpToComma(text, r)
  {
    var parts := SplitN2(text, ",");
    if |parts| == 2 then
      assert text == parts[0] + "," + parts[1];
      assert text[..|parts[0]|] == parts[0];
      parts[0]
    else
      parts[0]
  }

  /** strings.SplitN(text, sep, 2)[len-1]: the text after the first `sep`, or all of it. */
  function AfterFirst(text: string, sep: string): (r: string)
    requires sep != ""
    ensures !Contains(text, sep) ==> r == text
    ensures Contains(text, sep) ==> exists pre :: text == pre + sep + r && !Contains(pre, sep)
  {
    var parts := SplitN2(text, sep);
    if |parts| == 2 then
      assert text == parts[0] + sep + parts[1];
      parts[1]
    else
      parts[0]
  }

  /** The service segment: after the first `service=`, up to the next comma. */
  function ServiceSegment(beanName: string): (r: string)
    ensures UpToComma(AfterFirst(beanName, "service="), r)
  {
    FirstField(AfterFirst(beanName, "service="))
  }

  /** The bean segment: after the first `name=`, up to the next comma. */
  function BeanSegment(beanName: string): (r: string)
    ensures UpToComma(AfterFirst(beanName, "name="), r)
  {
    FirstField(AfterFirst(beanName, "name="))
  }

  /**
   * A bean segment `Metric-Tag` names the metric segment `Metric` and carries the single tag
   * Metric=Tag; a segment without '-' is the metric segment itself, with no tags.
   */
  function SplitBeanSegment(seg: string): (r: (string, Tags))
    ensures !Contains(seg, "-") ==> r == (seg, map[])
    ensures Contains(seg, "-") ==>
      r.1.Keys == {r.0} && seg == r.0 + "-" + r.1[r.0] && !Contains(r.0, "-")
  {
    var parts := SplitN2(seg, "-");
    if |parts| > 1 then
      assert seg == parts[0] + "-" + parts[1];
      (parts[0], map[parts[0] := parts[|parts| - 1]])
    else
      (seg, map[])
  }

  /** The metric name every attribute of a bean is appended to. */
  function MetricPrefix(beanName: string): string {
    "hdfs." + ServiceSegment(beanName) + "." + SplitBeanSegment(BeanSegment(beanName)).0 + "."
  }

  /** The attribute values reported: numbers below math.MaxInt64 (as a float64). */
  predicate Reported(v: Json) {
    v.JNumber? && v.x < MAX_INT64_AS_FLOAT
  }

  /** What the inner loop adds for attribute `k` of bean `b`. */
  function AttributePoints(b: Bean, prefix: string, t: Tags, k: string): multiset<Point> {
    if k in b && Reported(b[k]) then multiset{Add(prefix + k, RealVal(b[k].x), t, Unknown, NoUnit)}
    else multiset{}
  }

  function AttributeFn(b: Bean, prefix: string, t: Tags): string -> multiset<Point> {
    k => AttributePoints(b, prefix, t, k)
  }

  /** The points of one bean; a bean without a string `name` attribute adds none. */
  ghost function BeanPoints(b: Bean): multiset<Point> {
    if "name" in b && b["name"].JString? then
      var bn := b["name"].s;
      Union(b.Keys, AttributeFn(b, MetricPrefix(bn), SplitBeanSegment(BeanSegment(bn)).1))
    else multiset{}
  }

  /** The points of all beans, bean by bean. */
  ghost function HdfsPoints(beans: seq<Bean>): multiset<Point>
    decreases |beans|
  {
    if beans == [] then multiset{}
    else HdfsPoints(beans[..|beans| - 1]) + BeanPoints(beans[|beans| - 1])
  }

  /** The attribute loop of c_hdfs: every key of the bean, visited in any order. */
  method AddAttributes(b: Bean, mn: string, t: Tags) returns (md: multiset<Point>)
    ensures md == Union(b.Keys, AttributeFn(b, mn, t))
  {
    ghost var f := AttributeFn(b, mn, t);
    md := multiset{};
    var todo := b.Keys;
    while todo != {}
      invariant todo <= b.Keys
      invariant md + Union(todo, f) == Union(b.Keys, f)
      decreases todo
    {
      var k :| k in todo;
      var v := b[k];
      if v.JNumber? && v.x < MAX_INT64_AS_FLOAT {
        UnionStep(b.Keys, todo, f, k, md, multiset{Add(mn + k, RealVal(v.x), t, Unknown, NoUnit)});
        md := md + multiset{Add(mn + k, RealVal(v.x), t, Unknown, NoUnit)};
      } else {
        UnionStep(b.Keys, todo, f, k, md, multiset{});
        assert md + multiset{} == md;
      }
      todo := todo - {k};
    }
  }

  /** One pass of the bean loop of c_hdfs: a bean without a string `name` is skipped. */
  method AddBean(b: Bean) returns (md: multiset<Point>)
    ensures md == BeanPoints(b)
  {
    if "name" !in b || !b["name"].JString? {
      return multiset{};
    }
    var bn := b["name"].s;
    md := AddAttributes(b, MetricPrefix(bn), SplitBeanSegment(BeanSegment(bn)).1);
  }

  /** The bean loop of c_hdfs. */
  method Collect(beans: seq<Bean>) returns (md: multiset<Point>)
    ensures md == HdfsPoints(beans)
  {
    md := multiset{};
    for i := 0 to |beans|
      invariant md == HdfsPoints(beans[..i])
    {
      assert beans[..i + 1][..i] == beans[..i];
      var pts := AddBean(beans[i]);
      md := md + pts;
    }
    assert beans[..|beans|] == beans;
  }

  /**
   * Every point of a bean is one of its reported attributes, named
   * `hdfs.<service>.<bean>.<attribute>`; in particular the string `name` attribute never is.
   */
  lemma BeanPointsAreAttributes(b: Bean, p: Point)
    requires p in BeanPoints(b)
    ensures "name" in b && b["name"].JString?
    ensures exists k :: (k in b && k != "name" && Reported(b[k]) &&
      p == Add(MetricPrefix(b["name"].s) + k, RealVal(b[k].x),
               SplitBeanSegment(BeanSegment(b["name"].s)).1, Unknown, NoUnit))
  {
    var bn := b["name"].s;
    var f := AttributeFn(b, MetricPrefix(bn), SplitBeanSegment(BeanSegment(bn)).1);
    UnionMember(b.Keys, f, p);
    var k :| k in b.Keys && p in f(k);
    assert k != "name";
  }

  /** A bean with no string `name` attribute contributes nothing. */
  lemma UnnamedBeanIgnored(beans: seq<Bean>, b: Bean)
    requires "name" !in b || !b["name"].JString?
    ensures HdfsPoints(beans + [b]) == HdfsPoints(beans)
  {
    assert (beans + [b])[..|beans|] == beans;
  }
}
