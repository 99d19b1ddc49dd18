/**
 * The Docker collector: how many containers exist, how many are in each state, and, per
 * container, block-I/O and per-CPU points whose `op` and `cpu` tags are set and removed on one
 * shared tag map.
 *
 * The Docker API calls are inputs: the container list is a sequence with one entry per listed
 * container, holding the state reported by ContainerInspect, or None when inspecting it failed.
 */
module Docker {
  import opened Optional
  import opened Metrics
  import opened Bags
  import opened GoStrconv

  const TOTAL := "docker.total_containers"
  const STATUS_PREFIX := "docker.containers."
  const BLKIO_PREFIX := "docker.container.blkio."
  const PERCPU_USAGE := "docker.container.cpu.percpu_usage"

  /** The states reported as points, in the order they are reported. */
  const STATUSES: seq<string> := ["created", "running", "paused", "restarting", "removing", "exited", "dead"]

  // ---------------------------------------------------------------------------------------
  // Status histogram

  /** How many of the listed containers were inspected and found in state `s`. */
  function Count(containers: seq<Option<string>>, s: string): nat {
    if containers == [] then 0
    else
      var last := containers[|containers| - 1];
      Count(containers[..|containers| - 1], s) + (if last == Some(s) then 1 else 0)
  }

  /** The positions of the containers inspected and found in state `s`. */
  function InState(containers: seq<Option<string>>, s: string): set<int> {
    set i | 0 <= i < |containers| && containers[i] == Some(s)
  }

  /** The count is the number of containers in that state: failed inspections count nowhere. */
  lemma {:induction false} CountIsInState(containers: seq<Option<string>>, s: string)
    ensures Count(containers, s) == |InState(containers, s)|
    decreases |containers|
  {
    if containers != [] {
      var n := |containers| - 1;
      var init := containers[..n];
      CountIsInState(init, s);
      assert InState(init, s) == set i | 0 <= i < n && containers[i] == Some(s);
      if containers[n] == Some(s) {
        assert InState(containers, s) == InState(init, s) + {n};
      } else {
        assert InState(containers, s) == InState(init, s);
      }
    }
  }

  /** Reading a Go map[string]int: a missing key reads as 0. */
  function CountOf(counts: map<string, int>, s: string): int {
    if s in counts then counts[s] else 0
  }

  /** The cStatusCount loop of c_docker: one increment per inspected container. */
  method CountStatuses(containers: seq<Option<string>>) returns (counts: map<string, int>)
    ensures forall s :: CountOf(counts, s) == Count(containers, s)
    ensures forall s :: s in counts <==> Some(s) in containers
  {
    counts := map[];
    for i := 0 to |containers|
      invariant forall s :: CountOf(counts, s) == Count(containers[..i], s)
      invariant forall s :: s in counts <==> Some(s) in containers[..i]
    {
      assert containers[..i + 1][..i] == containers[..i];
      assert containers[..i + 1] == containers[..i] + [containers[i]];
      match containers[i]
      case None =>
      case Some(s) =>
        counts := counts[s := CountOf(counts, s) + 1];
    }
    assert containers[..|containers|] == containers;
  }

  function TotalPoint(n: int): Point {
    Add(TOTAL, IntVal(n), map[], Gauge, Named("containers"))
  }

  function StatusPoint(status: string, n: int): Point {
    Add(STATUS_PREFIX + status, IntVal(n), map[], Gauge, Named("containers"))
  }

  /** The seven status points for a container list, in the order of STATUSES. */
  function StatusPoints(containers: seq<Option<string>>): seq<Point> {
    seq(|STATUSES|, k requires 0 <= k < |STATUSES| => StatusPoint(STATUSES[k], Count(containers, STATUSES[k])))
  }

  /** The final loop of c_docker, over the fixed status list. */
  method EmitStatuses(counts: map<string, int>) returns (md: seq<Point>)
    ensures |md| == |STATUSES|
    ensures forall k :: 0 <= k < |STATUSES| ==> md[k] == StatusPoint(STATUSES[k], CountOf(counts, STATUSES[k]))
  {
    md := [];
    for k := 0 to |STATUSES|
      invariant |md| == k
      invariant forall j :: 0 <= j < k ==> md[j] == StatusPoint(STATUSES[j], CountOf(counts, STATUSES[j]))
    {
      md := md + [StatusPoint(STATUSES[k], CountOf(counts, STATUSES[k]))];
    }
  }

  /**
   * Exactly seven status points, one per listed state and in that order, each a gauge without
   * tags whose value is the number of containers found in that state (0 when there are none); a
   * state outside the list is counted but has no point.
   */
  lemma StatusPointsMeaning(containers: seq<Option<string>>, s: string)
    ensures |StatusPoints(containers)| == 7
    ensures forall k :: 0 <= k < 7 ==>
      StatusPoints(containers)[k].metric == "docker.containers." + STATUSES[k] &&
      StatusPoints(containers)[k].value == IntVal(|InState(containers, STATUSES[k])|) &&
      StatusPoints(containers)[k].tags == map[] && StatusPoints(containers)[k].rate == Gauge
    ensures Count(containers, s) == 0 && s in STATUSES ==>
      exists k :: 0 <= k < 7 && StatusPoints(containers)[k].value == IntVal(0) &&
        StatusPoints(containers)[k].metric == STATUS_PREFIX + s
    ensures s !in STATUSES ==> forall p :: p in StatusPoints(containers) ==> p.metric != STATUS_PREFIX + s
  {
    var pts := StatusPoints(containers);
    forall k | 0 <= k < 7
      ensures pts[k].value == IntVal(|InState(containers, STATUSES[k])|)
    {
      CountIsInState(containers, STATUSES[k]);
    }
    if s in STATUSES {
      var k :| 0 <= k < 7 && STATUSES[k] == s;
      assert pts[k].metric == STATUS_PREFIX + s;
    } else {
      forall p | p in pts ensures p.metric != STATUS_PREFIX + s {
        var k :| 0 <= k < 7 && pts[k] == p;
        assert (STATUS_PREFIX + STATUSES[k])[|STATUS_PREFIX|..] == STATUSES[k];
        assert (STATUS_PREFIX + s)[|STATUS_PREFIX|..] == s;
      }
    }
  }

  /**
   * c_docker after ContainerList succeeded, reduced to the points it adds outside the
   * per-container loop: the total first and the seven status points last.
   */
  method Collect(list: Option<seq<Option<string>>>) returns (md: seq<Point>, ok: bool)
    ensures ok <==> list.Some?
    ensures ok ==> md == [TotalPoint(|list.value|)] + StatusPoints(list.value)
    ensures !ok ==> md == []
  {
    if list.None? {
      return [], false;
    }
    var containers := list.value;
    md := [TotalPoint(|containers|)];
    var counts := CountStatuses(containers);
    var sp := EmitStatuses(counts);
    md := md + sp;
    ok := true;
  }

  // ---------------------------------------------------------------------------------------
  // Block I/O points and the `op` tag

  /** types.BlkioStatEntry */
  datatype BlkioEntry = BlkioEntry(major: int, minor: int, op: string, value: int)

  /** types.BlkioStats: the eight lists the collector reports. */
  datatype BlkioStats = BlkioStats(
    ioServiceBytes: seq<BlkioEntry>, ioServiced: seq<BlkioEntry>, ioQueued: seq<BlkioEntry>,
    ioServiceTime: seq<BlkioEntry>, ioWaitTime: seq<BlkioEntry>, ioMerged: seq<BlkioEntry>,
    ioTime: seq<BlkioEntry>, sectors: seq<BlkioEntry>)

  /** The map literal the blkio loop ranges over. */
  function BlkioLists(b: BlkioStats): map<string, seq<BlkioEntry>> {
    map[
      "io_service_bytes_recursive" := b.ioServiceBytes,
      "io_serviced_recursive" := b.ioServiced,
      "io_queue_recursive" := b.ioQueued,
      "io_service_time_recursive" := b.ioServiceTime,
      "io_wait_time_recursive" := b.ioWaitTime,
      "io_merged_recursive" := b.ioMerged,
      "io_time_recursive" := b.ioTime,
      "sectors_recursive" := b.sectors
    ]
  }

  /** The tags of an entry's points: the container's tags, plus `op` only when it is not empty. */
  function OpTags(base: Tags, op: string): Tags {
    if op == "" then base - {"op"} else base["op" := op]
  }

  /** The three points of one entry. */
  function EntryPoints(name: string, b: BlkioEntry, tags: Tags, ts: int): seq<Point> {
    [AddTS(name + ".major", ts, IntVal(b.major), tags, Unknown, NoUnit),
     AddTS(name + ".minor", ts, IntVal(b.minor), tags, Unknown, NoUnit),
     AddTS(name + ".value", ts, IntVal(b.value), tags, Unknown, NoUnit)]
  }

  /**
   * The points of one list of entries, in order; `sanitize` is opentsdb.MustReplace(_, "_"),
   * which is not part of this model.
   */
  function EntriesPoints(name: string, bs: seq<BlkioEntry>, base: Tags, ts: int, sanitize: string -> string): seq<Point>
  {
    if bs == [] then []
    else
      var b := bs[|bs| - 1];
      EntriesPoints(name, bs[..|bs| - 1], base, ts, sanitize) + EntryPoints(name, b, OpTags(base, sanitize(b.op)), ts)
  }

  /**
   * Setting `op` on a tag map and deleting it again when the new value is empty gives the
   * container's tags with `op` set exactly when the value is not empty, whatever `op` was
   * before.
   */
  lemma SetOp(t: Tags, base: Tags, op: string)
    requires t - {"op"} == base - {"op"}
    ensures op == "" ==> t["op" := op] - {"op"} == OpTags(base, op)
    ensures op != "" ==> t["op" := op] == OpTags(base, op)
  {
    var u := t["op" := op];
    var w := OpTags(base, op);
    if op == "" {
      forall k ensures k in u - {"op"} <==> k in w {
        assert k in u - {"op"} <==> k in t - {"op"};
      }
      forall k | k in w ensures (u - {"op"})[k] == w[k] {
        assert (t - {"op"})[k] == t[k];
      }
    } else {
      forall k ensures k in u <==> k in w {
        assert k != "op" ==> (k in t <==> k in t - {"op"}) && (k in base <==> k in base - {"op"});
      }
      forall k | k in w ensures u[k] == w[k] {
        if k != "op" {
          assert (t - {"op"})[k] == t[k] && (base - {"op"})[k] == base[k];
        }
      }
    }
  }

  /** The inner blkio loop, over the entries of one list, setting and clearing `op` on `t`. */
  method AddEntries(name: string, bs: seq<BlkioEntry>, t0: Tags, ts: int, sanitize: string -> string)
    returns (pts: seq<Point>, t: Tags)
    ensures pts == EntriesPoints(name, bs, t0, ts, sanitize)
    ensures t - {"op"} == t0 - {"op"}
  {
    pts := [];
    t := t0;
    for i := 0 to |bs|
      invariant pts == EntriesPoints(name, bs[..i], t0, ts, sanitize)
      invariant t - {"op"} == t0 - {"op"}
    {
      var b := bs[i];
      SetOp(t, t0, sanitize(b.op));
      t := t["op" := sanitize(b.op)];
      if t["op"] == "" {
        t := t - {"op"};
      }
      assert t == OpTags(t0, sanitize(b.op));
      assert bs[..i + 1][..i] == bs[..i] && bs[..i + 1][i] == b;
      pts := pts + EntryPoints(name, b, t, ts);
    }
    assert bs[..|bs|] == bs;
  }

  /**
   * Three points per entry, and each entry's three points carry that entry's `op`: set when
   * the sanitized operation is not empty, absent when it is.
   */
  lemma {:induction false} EntriesPointsAt(name: string, bs: seq<BlkioEntry>, base: Tags, ts: int, sanitize: string -> string)
    ensures |EntriesPoints(name, bs, base, ts, sanitize)| == 3 * |bs|
    ensures forall k :: 0 <= k < |bs| ==>
      EntriesPoints(name, bs, base, ts, sanitize)[3 * k..3 * k + 3] == EntryPoints(name, bs[k], OpTags(base, sanitize(bs[k].op)), ts)
    decreases |bs|
  {
    if bs != [] {
      var n := |bs| - 1;
      var init := bs[..n];
      EntriesPointsAt(name, init, base, ts, sanitize);
      var front := EntriesPoints(name, init, base, ts, sanitize);
      var es := front + EntryPoints(name, bs[n], OpTags(base, sanitize(bs[n].op)), ts);
      forall k | 0 <= k < |bs|
        ensures es[3 * k..3 * k + 3] == EntryPoints(name, bs[k], OpTags(base, sanitize(bs[k].op)), ts)
      {
        if k < n {
          assert bs[k] == init[k];
          assert es[3 * k..3 * k + 3] == front[3 * k..3 * k + 3];
        }
      }
    }
  }

  /** What every blkio point carries: the timestamp of the stats, and the tags of OpTags. */
  predicate BlkioTagged(p: Point, base: Tags, ts: int) {
    p.tags - {"op"} == base - {"op"} && ("op" in p.tags ==> p.tags["op"] != "") &&
    p.timestamp == Some(ts) && p.rate == Unknown && p.unit == NoUnit
  }

  lemma {:induction false} EntriesPointsTagged(name: string, bs: seq<BlkioEntry>, base: Tags, ts: int, sanitize: string -> string)
    ensures forall p :: p in EntriesPoints(name, bs, base, ts, sanitize) ==> BlkioTagged(p, base, ts)
    decreases |bs|
  {
    if bs != [] {
      var b := bs[|bs| - 1];
      EntriesPointsTagged(name, bs[..|bs| - 1], base, ts, sanitize);
      var tags := OpTags(base, sanitize(b.op));
      assert tags - {"op"} == base - {"op"};
    }
  }

  function BlkioFn(lists: map<string, seq<BlkioEntry>>, t0: Tags, ts: int, sanitize: string -> string): string -> multiset<Point> {
    k => if k in lists then multiset(EntriesPoints(BLKIO_PREFIX + k, lists[k], t0, ts, sanitize)) else multiset{}
  }

  lemma BlkioFnAt(lists: map<string, seq<BlkioEntry>>, t0: Tags, ts: int, sanitize: string -> string, k: string)
    requires k in lists
    ensures BlkioFn(lists, t0, ts, sanitize)(k) == multiset(EntriesPoints(BLKIO_PREFIX + k, lists[k], t0, ts, sanitize))
  {
  }

  /** Every block-I/O point of one container, in whatever order the map loop visits the lists. */
  ghost function BlkioPoints(b: BlkioStats, t0: Tags, ts: int, sanitize: string -> string): multiset<Point> {
    Union(BlkioLists(b).Keys, BlkioFn(BlkioLists(b), t0, ts, sanitize))
  }

  /** The blkio loop of c_docker and the delete after it. */
  method AddBlkio(b: BlkioStats, t0: Tags, ts: int, sanitize: string -> string) returns (md: multiset<Point>, t: Tags)
    ensures md == BlkioPoints(b, t0, ts, sanitize)
    ensures t == t0 - {"op"}
  {
    var lists := BlkioLists(b);
    ghost var f := BlkioFn(lists, t0, ts, sanitize);
    md := multiset{};
    t := t0;
    var todo := lists.Keys;
    while todo != {}
      invariant todo <= lists.Keys
      invariant md + Union(todo, f) == Union(lists.Keys, f)
      invariant t - {"op"} == t0 - {"op"}
      decreases todo
    {
      var k :| k in todo;
      var name := BLKIO_PREFIX + k;
      var pts, t' := AddEntries(name, lists[k], t, ts, sanitize);
      EntriesPointsSameBase(name, lists[k], t, t0, ts, sanitize);
      BlkioFnAt(lists, t0, ts, sanitize, k);
      UnionStep(lists.Keys, todo, f, k, md, multiset(pts));
      md := md + multiset(pts);
      t := t';
      todo := todo - {k};
    }
    t := t - {"op"};
  }

  /** The points of a list do not depend on the `op` the tag map held before it. */
  lemma {:induction false} EntriesPointsSameBase(name: string, bs: seq<BlkioEntry>, a: Tags, c: Tags, ts: int, sanitize: string -> string)
    requires a - {"op"} == c - {"op"}
    ensures EntriesPoints(name, bs, a, ts, sanitize) == EntriesPoints(name, bs, c, ts, sanitize)
    decreases |bs|
  {
    if bs != [] {
      var op := sanitize(bs[|bs| - 1].op);
      EntriesPointsSameBase(name, bs[..|bs| - 1], a, c, ts, sanitize);
      SetOp(a, c, op);
      SetOp(a, a, op);
    }
  }

  /**
   * Every block-I/O point carries the container's tags, an `op` tag only when it is not empty,
   * and the stats' timestamp.
   */
  lemma BlkioPointsTagged(b: BlkioStats, t0: Tags, ts: int, sanitize: string -> string, p: Point)
    requires p in BlkioPoints(b, t0, ts, sanitize)
    ensures BlkioTagged(p, t0, ts)
  {
    var lists := BlkioLists(b);
    var f := BlkioFn(lists, t0, ts, sanitize);
    UnionMember(lists.Keys, f, p);
    var k :| k in lists.Keys && p in f(k);
    BlkioFnAt(lists, t0, ts, sanitize, k);
    EntriesPointsTagged(BLKIO_PREFIX + k, lists[k], t0, ts, sanitize);
  }

  /**
   * Each entry of each list is reported: its major, minor and value points, tagged with its own
   * `op`, are among the block-I/O points.
   */
  lemma BlkioEntryReported(b: BlkioStats, t0: Tags, ts: int, sanitize: string -> string, k: string, i: int, j: int)
    requires k in BlkioLists(b) && 0 <= i < |BlkioLists(b)[k]| && 0 <= j < 3
    ensures EntryPoints(BLKIO_PREFIX + k, BlkioLists(b)[k][i], OpTags(t0, sanitize(BlkioLists(b)[k][i].op)), ts)[j]
      in BlkioPoints(b, t0, ts, sanitize)
  {
    var lists := BlkioLists(b);
    var f := BlkioFn(lists, t0, ts, sanitize);
    var es := EntriesPoints(BLKIO_PREFIX + k, lists[k], t0, ts, sanitize);
    EntriesPointsAt(BLKIO_PREFIX + k, lists[k], t0, ts, sanitize);
    assert es[3 * i..3 * i + 3][j] == es[3 * i + j];
    BlkioFnAt(lists, t0, ts, sanitize, k);
    UnionRemove(lists.Keys, f, k);
  }

  // ---------------------------------------------------------------------------------------
  // Per-CPU points and the `cpu` tag

  /** One point per CPU, tagged with the CPU's index. */
  function PerCPUPoints(t0: Tags, ts: int, percpu: seq<int>): seq<Point> {
    seq(|percpu|, i requires 0 <= i < |percpu| =>
      AddTS(PERCPU_USAGE, ts, IntVal(percpu[i]), t0["cpu" := Itoa(i)], Counter, Nanosecond))
  }

  /** The per-CPU loop of c_docker and the delete after it. */
  method AddPerCPU(t0: Tags, ts: int, percpu: seq<int>) returns (pts: seq<Point>, t: Tags)
    ensures pts == PerCPUPoints(t0, ts, percpu)
    ensures t == t0 - {"cpu"}
  {
    pts := [];
    t := t0;
    for i := 0 to |percpu|
      invariant |pts| == i
      invariant forall j :: 0 <= j < i ==> pts[j] == PerCPUPoints(t0, ts, percpu)[j]
      invariant t - {"cpu"} == t0 - {"cpu"}
    {
      CpuTagOver(t, t0, Itoa(i));
      t := t["cpu" := Itoa(i)];
      pts := pts + [AddTS(PERCPU_USAGE, ts, IntVal(percpu[i]), t, Counter, Nanosecond)];
    }
    t := t - {"cpu"};
  }

  /** Setting `cpu` overwrites whatever `cpu` held: the rest of the tag map decides the result. */
  lemma CpuTagOver(t: Tags, t0: Tags, v: string)
    requires t - {"cpu"} == t0 - {"cpu"}
    ensures t["cpu" := v] == t0["cpu" := v]
    ensures t["cpu" := v] - {"cpu"} == t0 - {"cpu"}
  {
    var u, w := t["cpu" := v], t0["cpu" := v];
    forall k ensures k in u <==> k in w {
      assert k != "cpu" ==> (k in t <==> k in t - {"cpu"}) && (k in t0 <==> k in t0 - {"cpu"});
    }
    forall k | k in w ensures u[k] == w[k] {
      if k != "cpu" {
        assert (t - {"cpu"})[k] == t[k] && (t0 - {"cpu"})[k] == t0[k];
      }
    }
  }

  /**
   * The `cpu` tag of the i-th per-CPU point is the decimal string of i: it parses back to i, so
   * no two CPUs share a tag; the other tags are the container's.
   */
  lemma PerCPUTags(t0: Tags, ts: int, percpu: seq<int>)
    requires |percpu| <= MAX_INT64 + 1
    ensures forall i :: 0 <= i < |percpu| ==>
      "cpu" in PerCPUPoints(t0, ts, percpu)[i].tags &&
      ParseInt(PerCPUPoints(t0, ts, percpu)[i].tags["cpu"]) == Some(i) &&
      PerCPUPoints(t0, ts, percpu)[i].tags - {"cpu"} == t0 - {"cpu"}
    ensures forall i, j :: 0 <= i < j < |percpu| ==>
      PerCPUPoints(t0, ts, percpu)[i].tags["cpu"] != PerCPUPoints(t0, ts, percpu)[j].tags["cpu"]
  {
    var pts := PerCPUPoints(t0, ts, percpu);
    forall i | 0 <= i < |percpu|
      ensures ParseInt(pts[i].tags["cpu"]) == Some(i) && pts[i].tags - {"cpu"} == t0 - {"cpu"}
    {
      ParseIntItoa(i);
      CpuTagOver(t0, t0, Itoa(i));
    }
  }

  /**
   * The stats part of one container's loop iteration that works on the tag map: the blkio
   * points, then the per-CPU points. The per-CPU points never carry an `op` tag, and after both
   * loops the tag map is the container's tags again, without `op` or `cpu`.
   */
  method AddStats(t0: Tags, ts: int, b: BlkioStats, percpu: seq<int>, sanitize: string -> string)
    returns (blkio: multiset<Point>, cpu: seq<Point>, t: Tags)
    ensures blkio == BlkioPoints(b, t0, ts, sanitize)
    ensures cpu == PerCPUPoints(t0 - {"op"}, ts, percpu)
    ensures forall p :: p in cpu ==> "op" !in p.tags
    ensures t == t0 - {"op"} - {"cpu"}
  {
    blkio, t := AddBlkio(b, t0, ts, sanitize);
    cpu, t := AddPerCPU(t, ts, percpu);
  }
}
