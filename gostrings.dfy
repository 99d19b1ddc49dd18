/**
 * The few functions of Go's `strings` package that the collectors use, with the behaviour the
 * Go library documents: searches are for the first, left-most occurrence, and replacements
 * scan left to right without overlapping.
 */
module GoStrings {

  predicate HasPrefix(s: string, prefix: string) {
    |prefix| <= |s| && s[..|prefix|] == prefix
  }

  predicate HasSuffix(s: string, suffix: string) {
    |suffix| <= |s| && s[|s| - |suffix|..] == suffix
  }

  /** `sep` occurs in `s` starting at index `i`. */
  predicate OccursAt(s: string, sep: string, i: int) {
    0 <= i && i + |sep| <= |s| && s[i..i + |sep|] == sep
  }

  predicate Contains(s: string, sep: string) {
    exists i :: 0 <= i <= |s| && OccursAt(s, sep, i)
  }

  /** The first occurrence of `sep` in `s` at or after `from`, or -1. */
  function IndexFrom(s: string, sep: string, from: nat): (r: int)
    requires from <= |s|
    ensures r == -1 || (from <= r && OccursAt(s, sep, r))
    ensures forall i :: from <= i && (r == -1 || i < r) ==> !OccursAt(s, sep, i)
    decreases |s| - from
  {
    if from + |sep| > |s| then -1
    else if s[from..from + |sep|] == sep then from
    else IndexFrom(s, sep, from + 1)
  }

  /** strings.Index: the index of the first occurrence of `sep` in `s`, or -1 if there is none. */
  function Index(s: string, sep: string): (r: int)
    ensures r == -1 <==> !Contains(s, sep)
    ensures r != -1 ==> OccursAt(s, sep, r) && forall i :: 0 <= i < r ==> !OccursAt(s, sep, i)
  {
    IndexFrom(s, sep, 0)
  }

  /** strings.Join */
  function Join(parts: seq<string>, sep: string): string {
    if |parts| == 0 then ""
    else if |parts| == 1 then parts[0]
    else parts[0] + sep + Join(parts[1..], sep)
  }

  lemma JoinThree(a: string, b: string, c: string, sep: string)
    ensures Join([a, b, c], sep) == a + sep + b + sep + c
  {
    assert [a, b, c][1..] == [b, c] && [b, c][1..] == [c];
    assert Join([c], sep) == c;
    assert Join([b, c], sep) == b + sep + c;
    assert Join([a, b, c], sep) == a + sep + (b + sep + c);
  }

  /** Joining three or more parts puts the first two, each followed by `sep`, in front of the rest. */
  lemma JoinHead(parts: seq<string>, sep: string)
    requires |parts| >= 3
    ensures Join(parts, sep) == parts[0] + sep + parts[1] + sep + Join(parts[2..], sep)
  {
    assert parts[1..][1..] == parts[2..];
    assert Join(parts[1..], sep) == parts[1] + sep + Join(parts[2..], sep);
  }

  /** No occurrence of `sep` starts before index `i` of `s`, so none lies inside `s[..i]`. */
  lemma PrefixFree(s: string, sep: string, i: nat)
    requires i <= |s| && sep != ""
    requires forall j :: 0 <= j < i ==> !OccursAt(s, sep, j)
    ensures !Contains(s[..i], sep)
  {
    forall j | 0 <= j <= i ensures !OccursAt(s[..i], sep, j) {
      if j + |sep| <= i {
        assert !OccursAt(s, sep, j);
        assert s[..i][j..j + |sep|] == s[j..j + |sep|];
      }
    }
  }

  /**
   * strings.SplitN(s, sep, 2): the text before the first `sep` and the text after it, or just
   * `s` when `sep` does not occur.
   */
  function SplitN2(s: string, sep: string): (r: seq<string>)
    requires sep != ""
    ensures 1 <= |r| <= 2
    ensures Join(r, sep) == s
    ensures |r| == 1 <==> !Contains(s, sep)
    ensures !Contains(r[0], sep)
  {
    var i := Index(s, sep);
    if i < 0 then [s]
    else
      PrefixFree(s, sep, i);
      assert s == s[..i] + sep + s[i + |sep|..];
      [s[..i], s[i + |sep|..]]
  }

  /** strings.Split: every piece of `s` between occurrences of `sep`. */
  function Split(s: string, sep: string): (r: seq<string>)
    requires sep != ""
    ensures |r| >= 1
    ensures Join(r, sep) == s
    ensures forall k :: 0 <= k < |r| ==> !Contains(r[k], sep)
    decreases |s|
  {
    var i := Index(s, sep);
    if i < 0 then [s]
    else
      PrefixFree(s, sep, i);
      var rest := Split(s[i + |sep|..], sep);
      assert s == s[..i] + sep + s[i + |sep|..];
      [s[..i]] + rest
  }

  /** strings.Replace(s, old, new, n) with n < 0 or n at least the number of occurrences. */
  function ReplaceAll(s: string, pat: string, repl: string): string
    requires pat != ""
    decreases |s|
  {
    var i := Index(s, pat);
    if i < 0 then s
    else s[..i] + repl + ReplaceAll(s[i + |pat|..], pat, repl)
  }

  /** strings.Replace(s, old, new, 1) */
  function ReplaceFirst(s: string, pat: string, repl: string): string {
    var i := Index(s, pat);
    if i < 0 then s
    else s[..i] + repl + s[i + |pat|..]
  }

  lemma ReplaceAllAbsent(s: string, pat: string, repl: string)
    requires pat != "" && !Contains(s, pat)
    ensures ReplaceAll(s, pat, repl) == s
  {
  }

  lemma ReplaceFirstAbsent(s: string, pat: string, repl: string)
    requires !Contains(s, pat)
    ensures ReplaceFirst(s, pat, repl) == s
  {
  }

  /** A string starting with `pat` has its first occurrence of `pat` at the very start. */
  lemma ReplaceFirstAtStart(s: string, pat: string, repl: string)
    requires HasPrefix(s, pat)
    ensures ReplaceFirst(s, pat, repl) == repl + s[|pat|..]
  {
    assert OccursAt(s, pat, 0);
  }

  /** Searching for a single character finds its first position, or -1 when it is absent. */
  lemma IndexOfChar(s: string, a: char)
    ensures Index(s, [a]) == -1 ==> forall k :: 0 <= k < |s| ==> s[k] != a
    ensures Index(s, [a]) != -1 ==> 0 <= Index(s, [a]) < |s| && s[Index(s, [a])] == a
    ensures forall k :: 0 <= k < |s| && (Index(s, [a]) == -1 || k < Index(s, [a])) ==> s[k] != a
  {
    var i := Index(s, [a]);
    forall k | 0 <= k < |s| && (i == -1 || k < i) ensures s[k] != a {
      assert !OccursAt(s, [a], k) && s[k..k + 1] == [s[k]];
    }
    if i != -1 {
      assert s[i..i + 1] == [a];
    }
  }

  /**
   * Replacing every occurrence of one character by another rewrites each position on its own:
   * the length is kept and every other character stays where it was.
   */
  lemma {:induction false} ReplaceAllChar(s: string, a: char, b: char)
    ensures |ReplaceAll(s, [a], [b])| == |s|
    ensures forall k :: 0 <= k < |s| ==>
      ReplaceAll(s, [a], [b])[k] == (if s[k] == a then b else s[k])
    decreases |s|
  {
    var i := Index(s, [a]);
    IndexOfChar(s, a);
    if i >= 0 {
      var rest := s[i + 1..];
      ReplaceAllChar(rest, a, b);
      var tail := ReplaceAll(rest, [a], [b]);
      var r := s[..i] + [b] + tail;
      assert ReplaceAll(s, [a], [b]) == r;
      forall k | 0 <= k < |s| ensures r[k] == (if s[k] == a then b else s[k]) {
        if k > i {
          assert r[k] == tail[k - i - 1] && rest[k - i - 1] == s[k];
        }
      }
    }
  }

  /** A string lacking some character of `sep` cannot contain `sep`. */
  lemma MissingChar(s: string, sep: string, c: char)
    requires c in sep && c !in s
    ensures !Contains(s, sep)
  {
    var j :| 0 <= j < |sep| && sep[j] == c;
    forall i | 0 <= i <= |s| ensures !OccursAt(s, sep, i) {
      if i + |sep| <= |s| {
        assert s[i..i + |sep|][j] == s[i + j] != c;
      }
    }
  }

  /**
   * unicode.IsSpace: the Latin-1 spaces '\t', '\n', '\v', '\f', '\r', ' ', U+0085 and U+00A0,
   * and the other code points of Unicode's White_Space property.
   */
  predicate IsSpace(c: char) {
    var n := c as int;
    (9 <= n <= 13) || n == 32 || n == 0x85 || n == 0xA0 ||
    n == 0x1680 || (0x2000 <= n <= 0x200A) || n == 0x2028 || n == 0x2029 ||
    n == 0x202F || n == 0x205F || n == 0x3000
  }

  predicate NoSpace(s: string) {
    forall k :: 0 <= k < |s| ==> !IsSpace(s[k])
  }

  predicate AllSpace(s: string) {
    forall k :: 0 <= k < |s| ==> IsSpace(s[k])
  }

  /** The length of the longest prefix of `s` without white space. */
  function WordLength(s: string): (n: nat)
    ensures n <= |s|
    ensures NoSpace(s[..n])
    ensures n < |s| ==> IsSpace(s[n])
  {
    if s == [] || IsSpace(s[0]) then 0
    else
      var m := WordLength(s[1..]);
      assert s[..m + 1] == [s[0]] + s[1..][..m];
      m + 1
  }

  /**
   * strings.Fields: the maximal runs of non-space characters of `s`, in order.
   */
  function Fields(s: string): (r: seq<string>)
    ensures forall k :: 0 <= k < |r| ==> r[k] != "" && NoSpace(r[k])
    decreases |s|
  {
    if s == [] then []
    else if IsSpace(s[0]) then Fields(s[1..])
    else
      var n := WordLength(s);
      [s[..n]] + Fields(s[n..])
  }

  /** Leading white space does not change the fields. */
  lemma {:induction false} FieldsSkipSpace(sp: string, s: string)
    requires AllSpace(sp)
    ensures Fields(sp + s) == Fields(s)
    decreases |sp|
  {
    if sp != [] {
      assert (sp + s)[0] == sp[0] && IsSpace(sp[0]);
      assert (sp + s)[1..] == sp[1..] + s;
      assert AllSpace(sp[1..]) by {
        forall k | 0 <= k < |sp| - 1 ensures IsSpace(sp[1..][k]) {
          assert sp[1..][k] == sp[k + 1];
        }
      }
      FieldsSkipSpace(sp[1..], s);
      assert Fields(sp + s) == Fields((sp + s)[1..]);
    } else {
      assert sp + s == s;
    }
  }

  /** A word followed by white space (or by nothing) is as long as the first word. */
  lemma {:induction false} WordLengthOfWord(w: string, s: string)
    requires NoSpace(w)
    requires s == [] || IsSpace(s[0])
    ensures WordLength(w + s) == |w|
    decreases |w|
  {
    if w == [] {
      assert w + s == s;
    } else {
      assert (w + s)[0] == w[0] && (w + s)[1..] == w[1..] + s;
      assert NoSpace(w[1..]) by {
        forall k | 0 <= k < |w| - 1 ensures !IsSpace(w[1..][k]) {
          assert w[1..][k] == w[k + 1];
        }
      }
      WordLengthOfWord(w[1..], s);
    }
  }

  /** A word followed by white space (or by nothing) is the first field. */
  lemma FieldsWord(w: string, s: string)
    requires w != "" && NoSpace(w)
    requires s == [] || IsSpace(s[0])
    ensures Fields(w + s) == [w] + Fields(s)
  {
    WordLengthOfWord(w, s);
    assert (w + s)[0] == w[0];
    assert (w + s)[..|w|] == w && (w + s)[|w|..] == s;
  }

  /** A last word followed only by white space is the only field. */
  lemma FieldsLastWord(w: string, trail: string)
    requires w != "" && NoSpace(w) && AllSpace(trail)
    ensures Fields(w + trail) == [w]
  {
    FieldsSkipSpace(trail, []);
    assert trail + [] == trail;
    FieldsWord(w, trail);
  }

  /** Two words separated by white space, with white space after them, are the two fields. */
  lemma FieldsOfWords(key: string, gap: string, value: string, trail: string)
    requires AllSpace(gap) && AllSpace(trail) && gap != ""
    requires key != "" && NoSpace(key) && value != "" && NoSpace(value)
    ensures Fields(key + (gap + (value + trail))) == [key, value]
  {
    var tail := value + trail;
    FieldsLastWord(value, trail);
    FieldsSkipSpace(gap, tail);
    var afterKey := gap + tail;
    assert afterKey[0] == gap[0];
    FieldsWord(key, afterKey);
  }

  /**
   * A line made of two words separated by white space, with optional white space around them,
   * splits into exactly those two words.
   */
  lemma {:induction false} FieldsOfPair(lead: string, key: string, gap: string, value: string, trail: string)
    requires AllSpace(lead) && AllSpace(gap) && AllSpace(trail) && gap != ""
    requires key != "" && NoSpace(key) && value != "" && NoSpace(value)
    ensures Fields(lead + key + gap + value + trail) == [key, value]
  {
    var line := key + (gap + (value + trail));
    Regroup(lead, key, gap, value, trail);
    FieldsOfWords(key, gap, value, trail);
    FieldsSkipSpace(lead, line);
  }

  /** A key and a value separated by one tab split into exactly those two fields. */
  lemma FieldsOfTabPair(key: string, value: string)
    requires key != "" && NoSpace(key) && value != "" && NoSpace(value)
    ensures Fields(key + "\t" + value) == [key, value]
  {
    FieldsOfPair("", key, "\t", value, "");
    assert "" + key + "\t" + value + "" == key + "\t" + value;
  }

  lemma Regroup(a: string, b: string, c: string, d: string, e: string)
    ensures a + b + c + d + e == a + (b + (c + (d + e)))
  {
  }
}
