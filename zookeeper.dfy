/**
 * The ZooKeeper collector: it sends the four-letter command `mntr` and turns every
 * "key<whitespace>value" line of the reply into a `zookeeper.<key>` point.
 */
module Zookeeper {
  import opened Optional
  import opened Metrics
  import opened GoStrings
  import opened GoStrconv

  /** The outcome of one textproto ReadLine call. */
  datatype ReadResult = Line(text: string) | Eof | ReadError

  const SERVER_STATE := "zk_server_state"
  const IS_LEADER := "zk_server_is_leader"

  /**
   * What one reply line contributes. Lines that do not split into exactly two fields are
   * skipped; `zk_server_state` becomes the 0/1 flag `zk_server_is_leader`; any other value
   * must parse as a decimal 64-bit integer or the line is skipped.
   */
  function LinePoint(l: string): (r: Option<Point>)
    ensures |Fields(l)| != 2 ==> r.None?
    ensures r.Some? ==>
      HasPrefix(r.value.metric, "zookeeper.") && r.value.tags == map[] &&
      r.value.rate == Unknown && r.value.unit == NoUnit && r.value.value.IntVal?
    ensures |Fields(l)| == 2 && Fields(l)[0] == SERVER_STATE ==>
      r.Some? && r.value.metric == "zookeeper." + IS_LEADER &&
      (r.value.value == IntVal(1) <==> Fields(l)[1] == "leader") &&
      (r.value.value == IntVal(0) <==> Fields(l)[1] != "leader")
    ensures |Fields(l)| == 2 && Fields(l)[0] != SERVER_STATE ==>
      (r.Some? <==> ParseInt(Fields(l)[1]).Some?) &&
      (r.Some? ==> r.value.metric == "zookeeper." + Fields(l)[0] &&
                   r.value.value == IntVal(ParseInt(Fields(l)[1]).value))
  {
    var p := Fields(l);
    if |p| != 2 then None
    else if p[0] == SERVER_STATE then
      Some(Add("zookeeper." + IS_LEADER, IntVal(if p[1] == "leader" then 1 else 0), map[], Unknown, NoUnit))
    else
      match ParseInt(p[1])
      case None => None
      case Some(v) => Some(Add("zookeeper." + p[0], IntVal(v), map[], Unknown, NoUnit))
  }

  /** The points of a sequence of reply lines, in line order. */
  function MntrPoints(lines: seq<string>): (md: seq<Point>)
    ensures |md| <= |lines|
    ensures forall k :: 0 <= k < |md| ==> HasPrefix(md[k].metric, "zookeeper.") && md[k].tags == map[]
    decreases |lines|
  {
    if lines == [] then []
    else
      var prior := MntrPoints(lines[..|lines| - 1]);
      match LinePoint(lines[|lines| - 1])
      case None => prior
      case Some(p) => prior + [p]
  }

  /** The lines read before the first read error or end of input. */
  function LinesRead(replies: seq<ReadResult>): (lines: seq<string>)
    ensures |lines| <= |replies|
    ensures forall k :: 0 <= k < |lines| ==> replies[k] == Line(lines[k])
    ensures |lines| < |replies| ==> !replies[|lines|].Line?
  {
    if replies == [] || !replies[0].Line? then []
    else [replies[0].text] + LinesRead(replies[1..])
  }

  /**
   * The read loop of c_zookeeper: it stops at the first error (io.EOF included) and returns
   * what it collected so far; the error itself is not reported.
   */
  method Collect(replies: seq<ReadResult>) returns (md: seq<Point>)
    ensures md == MntrPoints(LinesRead(replies))
  {
    md := [];
    var i := 0;
    while i < |replies|
      invariant 0 <= i <= |replies|
      invariant i <= |LinesRead(replies)|
      invariant md == MntrPoints(LinesRead(replies)[..i])
    {
      if !replies[i].Line? {
        break;
      }
      var lines := LinesRead(replies);
      assert lines[..i + 1][..i] == lines[..i];
      var p := LinePoint(replies[i].text);
      if p.Some? {
        md := md + [p.value];
      }
      i := i + 1;
    }
    assert LinesRead(replies)[..i] == LinesRead(replies);
  }

  /** Points come out in line order: the points of two runs of lines are concatenated. */
  lemma {:induction false} MntrPointsAppend(a: seq<string>, b: seq<string>)
    ensures MntrPoints(a + b) == MntrPoints(a) + MntrPoints(b)
    decreases |b|
  {
    if b == [] {
      assert a + b == a;
    } else {
      var b' := b[..|b| - 1];
      MntrPointsAppend(a, b');
      assert (a + b)[..|a + b| - 1] == a + b';
      assert (a + b)[|a + b| - 1] == b[|b| - 1];
    }
  }

  /** Nothing after a read error is read, whatever follows it. */
  lemma {:induction false} StopsAtError(lines: seq<string>, err: ReadResult, rest: seq<ReadResult>)
    requires !err.Line?
    ensures LinesRead(Lines(lines) + [err] + rest) == lines
    decreases |lines|
  {
    if lines != [] {
      StopsAtError(lines[1..], err, rest);
      assert (Lines(lines) + [err] + rest)[1..] == Lines(lines[1..]) + [err] + rest;
    }
  }

  /** The replies that deliver `lines` one after the other. */
  function Lines(lines: seq<string>): (replies: seq<ReadResult>)
    ensures |replies| == |lines|
    ensures forall k :: 0 <= k < |lines| ==> replies[k] == Line(lines[k])
  {
    seq(|lines|, k requires 0 <= k < |lines| => Line(lines[k]))
  }

  /** `zk_server_state` is reported as 1 for the leader and 0 for every other state. */
  lemma ServerStateLine(state: string)
    requires state != "" && NoSpace(state)
    ensures LinePoint(SERVER_STATE + "\t" + state)
         == Some(Add("zookeeper.zk_server_is_leader", IntVal(if state == "leader" then 1 else 0),
                     map[], Unknown, NoUnit))
  {
    assert "zookeeper." + IS_LEADER == "zookeeper.zk_server_is_leader";
    assert NoSpace(SERVER_STATE);
    FieldsOfTabPair(SERVER_STATE, state);
  }

  /** A counter line with a decimal value is reported under its own key. */
  lemma CounterLine(key: string, digits: string)
    requires key != "" && NoSpace(key) && key != SERVER_STATE
    requires digits != "" && AllDigits(digits) && DecimalValue(digits) <= MAX_INT64
    ensures LinePoint(key + "\t" + digits)
         == Some(Add("zookeeper." + key, IntVal(DecimalValue(digits)), map[], Unknown, NoUnit))
  {
    assert NoSpace(digits) by {
      forall k | 0 <= k < |digits| ensures !IsSpace(digits[k]) {
        assert IsDigit(digits[k]);
      }
    }
    FieldsOfTabPair(key, digits);
  }
}
