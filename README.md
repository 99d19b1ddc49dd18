# scollector collectors: a verified model of seven data transformations

scollector is the metrics agent of Bosun. Each of its collectors reads raw data from some
service and turns it into OpenTSDB data points: a metric name, a value, a tag set, a rate type,
a unit, and an optional timestamp. This project models the transformation step of seven
collectors and proves what each one emits:

- **ZooKeeper** (`zookeeper.dfy`): reads the lines of the `mntr` reply up to the first read
  error or EOF. It keeps the lines with exactly two white-space separated fields, turns
  `zk_server_state` into the 0/1 `zk_server_is_leader`, and keeps every other key whose value
  is a decimal int64.
- **HDFS** (`hdfs.dfy`): builds the DataNode JMX URL from the configured DataNode host. The
  NameNode URL stays at `localhost:50070` whatever NameNode host is configured (see Findings).
  It splits a JMX bean name into its `service=` and `name=` segments and a `Name-Tag` pair,
  and emits `hdfs.<service>.<bean>.<attribute>` for every numeric attribute below 2^63.
- **Route count** (`route_count.dfy`, with IP helpers in `gonet.dfy`): drops routes whose
  gateway or destination is nil or zero. It buckets the other routes by family and gateway,
  counting the routes and the address space `1 << (bits - ones - offset)` with Go's int64
  shift and wrap-around. It then emits two points per bucket on one shared tag map.
- **Solr** (`solr.dfy`): joins the three keys of the metrics response into a dotted name and
  replaces `/` by `_`. It drops names ending in `Rate` and values that are not numbers at most
  2^63, and classifies the rate type and the unit. Every core's group is folded into
  `solr.core`, and as written the `core` tag is `solr.core` for every core (see Findings).
- **Graylog** (`graylog.dfy`): queries three namespaces per cluster node and skips metrics
  whose rate total and time maximum are both zero. It shortens dotted names longer than three
  parts to the first two parts plus the short name.
- **ICMP** (`icmp.dfy`): registers a collector per non-empty host, names it `icmp-<host>`, and
  maps one ping result and its error to the resolved, timeout, rtt and ttl points.
- **Docker** (`docker.dfy`): counts the listed containers and the inspected containers per
  state, and emits seven state points in a fixed order. It sets and removes the block-I/O `op`
  tag and the per-CPU `cpu` tag on one tag map shared across the loops.

Shared modules:

- `optional.dfy`: the `Option` type.
- `metrics.dfy`: the data point, and Go's `Add`/`AddTS`, which copy the tag map.
- `bags.dfy`: `Union`, the multiset sum over the keys of a Go map. It states what a
  `range` loop over a map appends, whatever order the runtime picks.
- `gostrings.dfy`: `Index`, `SplitN`, `Split`, `Join`, `Replace`, `HasPrefix`, `HasSuffix` and
  `Fields` from Go's `strings` package.
- `gostrconv.dfy`: `ParseInt` and `Itoa` from Go's `strconv` package.

Modelling choices:

- Loops that append to `md` become methods whose `while` or `for` loops carry invariants.
- Loops over Go maps pick an arbitrary remaining key. They are proved to emit exactly the
  `Union` of the per-key output, so no visiting order is assumed.
- The network, the Docker and netlink clients, and JSON decoding become inputs:
  - a sequence of read results;
  - decoded beans, maps or metric lists;
  - a `fetch` function.
- Unseen helpers become function parameters:
  - `net.IP.String` is `show`;
  - `opentsdb.MustReplace` is `sanitize`.
- `float64` values are `real`. `math.MaxInt64` compared with a float64 is the float 2^63.
- Where the code does not do what it evidently intends (see Findings), the collector is
  modelled as written. The intended behaviour is defined beside it (`Hdfs.NameNodeURL`,
  `Solr.Group`) and its property is proved there.

## Model

| member | source | states |
|---|---|---|
| Zookeeper.LinePoint | cmd/scollector/collectors/zookeeper.go:55-73 | a line without exactly two fields gives no point; `zk_server_state` always gives `zookeeper.zk_server_is_leader` with value 1 iff the second field is `leader`, else 0; any other key gives `zookeeper.<key>` iff its value parses as a decimal int64, with that value and nil tags |
| Zookeeper.MntrPoints | cmd/scollector/collectors/zookeeper.go:47-74 | at most one point per line, every point named `zookeeper.` + key with no tags |
| Zookeeper.MntrPointsAppend | cmd/scollector/collectors/zookeeper.go:47-74 | lines are processed independently and in order: the points of `a + b` are those of `a` followed by those of `b` |
| Zookeeper.LinesRead | cmd/scollector/collectors/zookeeper.go:47-54 | the lines handled are exactly the replies before the first read error or EOF |
| Zookeeper.StopsAtError | cmd/scollector/collectors/zookeeper.go:48-54 | nothing after an error or EOF is read, whatever follows it |
| Zookeeper.Collect | cmd/scollector/collectors/zookeeper.go:46-75 | the read loop returns the points of every line read before the first error or EOF, in line order |
| Zookeeper.ServerStateLine | cmd/scollector/collectors/zookeeper.go:62-66 | a `zk_server_state <state>` line gives the leader flag, 1 exactly for `leader` |
| Zookeeper.CounterLine | cmd/scollector/collectors/zookeeper.go:67-73 | a `<key> <digits>` line with a key other than `zk_server_state` gives `zookeeper.<key>` with the decimal value |
| Hdfs.DataNodeHostApplies | cmd/scollector/collectors/hdfs_unix.go:15-20 | a configured DataNode host replaces `localhost:50075` in the DataNode URL; an empty one leaves the default |
| Hdfs.NameNodeHostIgnored | cmd/scollector/collectors/hdfs_unix.go:16-22 | as written, the NameNode URL is the default whatever host is configured, because the replaced text does not occur in it |
| Hdfs.NameNodeHostApplies | cmd/scollector/collectors/hdfs_unix.go:16-22 | corrected: a configured NameNode host replaces `localhost:50070` in the NameNode URL |
| Hdfs.URLs | cmd/scollector/collectors/hdfs_unix.go:15-25 | the two collectors poll the DataNode URL with the configured DataNode host (or `localhost:50075`), then the NameNode URL, which as written is always `http://localhost:50070/jmx?...` |
| Hdfs.AfterFirst | cmd/scollector/collectors/hdfs_unix.go:42-44 | the last piece of `SplitN(s, sep, 2)`: the text after the first `sep`, or all of `s` without one |
| Hdfs.FirstField | cmd/scollector/collectors/hdfs_unix.go:43-45 | the first piece of `SplitN(s, ",", 2)`: the text up to the first comma |
| Hdfs.ServiceSegment | cmd/scollector/collectors/hdfs_unix.go:42-43 | the service is the text after the first `service=` up to the next comma, or the name up to its first comma without `service=` |
| Hdfs.BeanSegment | cmd/scollector/collectors/hdfs_unix.go:44-45 | the bean segment is the text after the first `name=` up to the next comma |
| Hdfs.SplitBeanSegment | cmd/scollector/collectors/hdfs_unix.go:46-52 | without `-` the segment is kept with nil tags; with one, the metric segment is the text before the first `-` and the tags are exactly {that text: the text after it} |
| Hdfs.AddAttributes | cmd/scollector/collectors/hdfs_unix.go:53-59 | the attribute loop emits, in any order, one point `prefix + key` per attribute whose value is a number below 2^63 |
| Hdfs.AddBean | cmd/scollector/collectors/hdfs_unix.go:37-59 | a bean emits its attribute points when its `name` is a string, and nothing otherwise |
| Hdfs.Collect | cmd/scollector/collectors/hdfs_unix.go:35-61 | the bean loop emits the points of every bean |
| Hdfs.BeanPointsAreAttributes | cmd/scollector/collectors/hdfs_unix.go:39-58 | every point comes from a named bean and is a reported attribute other than `name`, named `hdfs.<svc>.<bean>.<key>` with the split-off tag |
| Hdfs.UnnamedBeanIgnored | cmd/scollector/collectors/hdfs_unix.go:39-41 | a bean whose `name` is absent or not a string adds no points |
| RouteCount.IsZeroIff | cmd/scollector/collectors/route_count.go:38-41 | an address counts as zero exactly when it is 0.0.0.0 in either form or `::` |
| RouteCount.Wrap64Add | cmd/scollector/collectors/route_count.go:56 | adding under int64 wrap-around step by step equals wrapping the exact sum |
| RouteCount.StatsFamilies | cmd/scollector/collectors/route_count.go:44-52 | the aggregate only has the families `IPv4` and `IPv6`, and a family map is only created with a gateway in it |
| RouteCount.StepExpected | cmd/scollector/collectors/route_count.go:37-57 | one route updates only its own (family, gateway) bucket, by one route and its address space |
| RouteCount.StatsMeaning | cmd/scollector/collectors/route_count.go:37-57 | for every (family, gateway), `routes` is the number of kept routes through it and `ips` the int64-wrapped sum of `1 << (bits - ones - offset)` over them; no bucket exists without such a route |
| RouteCount.Aggregate | cmd/scollector/collectors/route_count.go:36-58 | the loop that updates the nested map in place computes that aggregate |
| RouteCount.IPv4Slash24 | cmd/scollector/collectors/route_count.go:44-56 | an IPv4 /24 through an IPv4 gateway adds 256 addresses |
| RouteCount.IPv6Slash64 | cmd/scollector/collectors/route_count.go:44-56 | an IPv6 /64 through an IPv6 gateway adds 1 |
| RouteCount.IPv4ViaIPv6Gateway | cmd/scollector/collectors/route_count.go:44-56 | an IPv4 destination through an IPv6 gateway gets the 64 offset, so the shift count 32 - ones - 64 is negative; converted to `uint` it shifts the 1 out entirely and the route adds 0 |
| RouteCount.BucketPointsShape | cmd/scollector/collectors/route_count.go:60-74 | each bucket emits exactly two gauges tagged with its family and gateway: `routes.route_per_gw`, and `routes.ip_per_gw` for IPv4 or `routes.64s_per_gw` for IPv6 |
| RouteCount.EmitFamily | cmd/scollector/collectors/route_count.go:70-74 | the gateway loop appends every gateway's two points while the shared tag map keeps the family |
| RouteCount.Emit | cmd/scollector/collectors/route_count.go:59-75 | the nested emission loops append the points of every bucket, in any order |
| RouteCount.Collect | cmd/scollector/collectors/route_count.go:34-76 | the first point is `routes.total`, counting every route, filtered ones included; the points after it are exactly every bucket's points |
| GoNet.MaskSizeOfCIDR | cmd/scollector/collectors/route_count.go:53 | the size of a canonical prefix mask is its prefix length and address width |
| Solr.MetricsURL | cmd/scollector/collectors/solr.go:21-28 | the metrics URL is `http://` + the configured host, or `localhost:8080` without one, + the fixed path |
| Solr.CoreTagAsWrittenConstant | cmd/scollector/collectors/solr.go:58-60 | as written, the `core` tag is the literal `solr.core` for every core |
| Solr.GroupAsWritten | cmd/scollector/collectors/solr.go:57-61 | as written: a `solr.core.` key is grouped as `solr.core` with the tag `core=solr.core`; any other key is its own group with no tags |
| Solr.Group | cmd/scollector/collectors/solr.go:57-61 | corrected: a `solr.core.` key is grouped as `solr.core` with a `core` tag that is the rest of the key; any other key is kept with no tags |
| Solr.SolrPoint | cmd/scollector/collectors/solr.go:72-89 | a point exists iff the name, after every `/` becomes `_`, does not end in `Rate` and the value is a number at most 2^63; it is a counter iff the name is `count`, in milliseconds iff it ends in `_ms` |
| Solr.SlashFree | cmd/scollector/collectors/solr.go:73 | the rewrite keeps the length, replaces each `/` by `_` and nothing else, and leaves no `/` |
| Solr.NeverCounter | cmd/scollector/collectors/solr.go:64-83 | a name joined from three keys contains dots, so it is never `count` and every Solr point is of rate Unknown |
| Solr.SolrPointsMember | cmd/scollector/collectors/solr.go:56-68 | for a given grouping of the top-level keys, a point is emitted iff some group, category and metric key yield it, under the name `<group>.k2.k3` and the group's tags |
| Solr.CoreTagAsWrittenInPoints | cmd/scollector/collectors/solr.go:56-68 | as written, every emitted point with a `core` tag has exactly the tags `core=solr.core`, and the response has some core key |
| Solr.CoreTagNamesCore | cmd/scollector/collectors/solr.go:56-68 | corrected: the `core` tag of an emitted point is the only tag, and `solr.core.` + that tag is a key of the response |
| Solr.SolrPointsShape | cmd/scollector/collectors/solr.go:56-89 | under either grouping, every emitted point has no `/`, no `Rate` suffix, a value at most 2^63, rate Unknown, the `_ms` unit rule, and either no tags or just `core` |
| Solr.AddLeaves | cmd/scollector/collectors/solr.go:63-66 | the innermost loop emits every metric of one category |
| Solr.AddCategories | cmd/scollector/collectors/solr.go:62-67 | the middle loop emits every category of one group |
| Solr.AddGroups | cmd/scollector/collectors/solr.go:56-68 | the outer loop emits every group's points under the given grouping |
| Solr.Collect | cmd/scollector/collectors/solr.go:50-70 | a failed fetch gives no points and an error; otherwise every group's points, grouped as written (`core=solr.core`) |
| Graylog.GraylogURL | cmd/scollector/collectors/graylog.go:13-18 | a configured non-empty URL is used as is; an empty one gives `http://localhost:9000` |
| Graylog.NamespaceURLs | cmd/scollector/collectors/graylog.go:60-64 | each node is queried on exactly three distinct URLs, `<url>/api/cluster/<node>/metrics/namespace/` followed by `cluster`, `org` and `jvm`, in that order |
| Graylog.ShortNameMeaning | cmd/scollector/collectors/graylog.go:78-85 | a full name of at most three dot-separated parts is kept; a longer one becomes its first two parts and the short name, joined by dots |
| Graylog.MetricPoint | cmd/scollector/collectors/graylog.go:75-86 | a metric is skipped iff its rate total and time maximum are both zero; otherwise its value is the rate total and its tags are exactly `full_name` and `type` |
| Graylog.MetricPointName | cmd/scollector/collectors/graylog.go:78-86 | the point is named `graylog.` + the shortened name |
| Graylog.NamespacePointsMember | cmd/scollector/collectors/graylog.go:74-87 | a point is emitted for a namespace iff some metric in it yields it |
| Graylog.NamespacePointsSound | cmd/scollector/collectors/graylog.go:74-87 | every emitted point is yielded by some metric of the namespace |
| Graylog.NamespacePointsComplete | cmd/scollector/collectors/graylog.go:74-87 | every point a metric of the namespace yields is emitted |
| Graylog.AddMetrics | cmd/scollector/collectors/graylog.go:74-87 | the metric loop emits the namespace's points in metric order |
| Graylog.GatheredPrefix | cmd/scollector/collectors/graylog.go:60-73 | what is gathered before a failing namespace is a prefix of the node's points |
| Graylog.AddNode | cmd/scollector/collectors/graylog.go:60-88 | a node succeeds iff all three namespaces can be read, and then gives all their points; otherwise a prefix of them |
| Graylog.GraylogPointsShape | cmd/scollector/collectors/graylog.go:74-86 | every emitted point is named `graylog.…`, has the `full_name`/`type` tags and rate Unknown |
| Graylog.AddNodes | cmd/scollector/collectors/graylog.go:59-89 | the node loop succeeds iff every node is readable; its points are always part of every node's points, and all of them on success |
| Graylog.Collect | cmd/scollector/collectors/graylog.go:30-91 | an unreadable cluster list gives no points and an error; otherwise the node loop's result |
| Icmp.Name | cmd/scollector/collectors/icmp.go:27-29 | the collector name is `icmp-` followed by the host |
| Icmp.Registry.ICMP | cmd/scollector/collectors/icmp.go:84-93 | an empty host gives the `empty ICMP hostname` error and leaves the collector list unchanged; any other host appends exactly one collector, named `icmp-` + host |
| Icmp.PingPoints | cmd/scollector/collectors/icmp.go:36-51 | `ping.resolved` is false iff the error is a DNS error; `ping.timeout` is true iff there is an error, so unresolved implies timed out; `ping.rtt` in milliseconds only for a nonzero RTT, `ping.ttl` only for a nonzero TTL |
| Icmp.PingPointsShape | cmd/scollector/collectors/icmp.go:39-51 | 2 to 4 points, each tagged `dst_host` = host and stamped with the send time; rtt present iff RTT is nonzero, ttl iff TTL is nonzero |
| Docker.CountIsInState | cmd/scollector/collectors/docker_linux.go:48-54 | the count for a state is the number of containers inspected in that state; failed inspections count nowhere |
| Docker.CountStatuses | cmd/scollector/collectors/docker_linux.go:46-54 | the counting loop leaves, for every state, that count (0 when absent), with a key exactly for the states seen |
| Docker.EmitStatuses | cmd/scollector/collectors/docker_linux.go:144-146 | the final loop emits one gauge per listed state, in order, with the count read as 0 when missing |
| Docker.StatusPointsMeaning | cmd/scollector/collectors/docker_linux.go:144-146 | exactly seven points, for created, running, paused, restarting, removing, exited and dead in that order, each with that state's count and no tags; other states are counted but never emitted |
| Docker.Collect | cmd/scollector/collectors/docker_linux.go:39-148 | a failed container list gives an error; otherwise `docker.total_containers` counts every listed container, inspected or not, and the seven state points end the output |
| Docker.SetOp | cmd/scollector/collectors/docker_linux.go:107-110 | setting `op` and then deleting it when empty gives the container's tags plus `op` exactly when it is not empty |
| Docker.AddEntries | cmd/scollector/collectors/docker_linux.go:106-115 | the entry loop emits major, minor and value per entry, each tagged with its own `op`, and leaves the other tags as they were |
| Docker.EntriesPointsAt | cmd/scollector/collectors/docker_linux.go:106-115 | three points per entry, at the entry's place, carrying that entry's `op` |
| Docker.AddBlkio | cmd/scollector/collectors/docker_linux.go:96-116 | the blkio loop emits every list's points, in any order, and afterwards `op` is absent and the rest of the tag map unchanged |
| Docker.BlkioPointsTagged | cmd/scollector/collectors/docker_linux.go:105-115 | every block-I/O point has the container's tags, an `op` tag only when non-empty, and the stats' timestamp |
| Docker.BlkioEntryReported | cmd/scollector/collectors/docker_linux.go:105-115 | each entry of each of the eight lists has its three points among the block-I/O points |
| Docker.AddPerCPU | cmd/scollector/collectors/docker_linux.go:126-130 | one `percpu_usage` counter per CPU in order, tagged with its index; afterwards `cpu` is absent and the rest of the tag map unchanged |
| Docker.PerCPUTags | cmd/scollector/collectors/docker_linux.go:127 | the `cpu` tag of the i-th point is the decimal string of i, which parses back to i, so no two CPUs share a tag |
| Docker.AddStats | cmd/scollector/collectors/docker_linux.go:105-130 | run in sequence, the two loops leave per-CPU points without `op`, and a tag map without `op` or `cpu` |

## Left out

- Network, netlink, Docker API and HTTP calls, `textproto`, `getBeans` and JSON decoding are
  not modelled. Their results are inputs: read results, decoded beans and maps, metric lists,
  a `fetch` function, and inspected container states.
- `registerInit`, `enableURL`, `enable*` and the `collectors` registry are not modelled, apart
  from the append in `ICMP`.
- The ICMP `Run` method is not modelled: its goroutine, context cancellation, channel sends and
  `ApplyTagOverrides`. `go-multiping` is not part of this model. Its ping result and error
  kinds are inputs.
- Icmp.PingPoints: RTT in milliseconds is the exact quotient `rtt / 1e6` rather than the
  float64 division, and the `ping.ttl` value is not given a type width.
- Floating point: JSON numbers and Graylog's values are exact `real`s, so float64 rounding is
  not captured. The comparisons with `math.MaxInt64` use 2^63, the value Go converts the
  constant to.
- `net.IP.String` and `opentsdb.MustReplace` are not part of this model. They are the function
  parameters `show` and `sanitize`.
- Point descriptions and other metadata text are dropped. `metadata` units and rate types are
  symbolic constructors.
- Go map iteration order is not modelled. Outputs of map loops are multisets, so the order of
  those points within `md` is not captured.
- Hdfs.Collect: its loop over the beans is over a slice, yet its output is the multiset sum of
  the beans' points, because each bean's own attribute loop is a map loop. The order between
  beans is therefore not captured either.
- Docker: the per-container points that need a clock, a retrying JSON decoder or straight-line
  code are not modelled:
  - uptime from `time.Now`;
  - the stats decode retry with `time.Sleep`;
  - the `cs.Read.IsZero` skip;
  - the pids, cpu-total, throttling and memory points.
- Docker.Collect: states only the points outside the per-container loop (the total first, the
  seven state points last). The per-container block-I/O and per-CPU points in between are
  covered by `Docker.AddStats`, for one container's stats.
- Graylog.AddNodes: on a failing node, the points returned with the error are stated as part of
  the full output, not which part, because they depend on the order Go visits the nodes.
- Go's `strings.Replace` and `strings.Split` are modelled only for non-empty separators, which
  is all the collectors use.

## Findings

| source | as written | input that shows it | evidently intended | confidence | as-written member | corrected member |
|---|---|---|---|---|---|---|
| cmd/scollector/collectors/hdfs_unix.go:16-22 | the NameNode override replaces `localhost:50075` in a URL that holds `localhost:50070`, so it never applies | NameNode host `nn.example:50070`: the URL stays `http://localhost:50070/jmx?...` | replace `localhost:50070` with the configured host | high (not executed) | Hdfs.NameNodeHostIgnored | Hdfs.NameNodeHostApplies |
| cmd/scollector/collectors/solr.go:57-61 | `k1` is overwritten with `solr.core` before the `core` tag is computed from it, so every core is tagged `solr.core` | group key `solr.core.collection1`: tag `core=solr.core` | tag `core=collection1`, the key after `solr.core.` | high (not executed) | Solr.CoreTagAsWrittenInPoints | Solr.CoreTagNamesCore |
