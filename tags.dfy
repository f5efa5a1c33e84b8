/** The image tags of deployments pushed from the command line, `cli-<n>`:
    finding the latest one and naming the next. */
module ImageTags {
  import opened Json
  import opened JsNumbers
  import opened Catalog

  const CliPrefix := "cli-"

  /** `t.startsWith("cli-")`. */
  predicate IsCliTag(t: string) {
    |CliPrefix| <= |t| && t[..|CliPrefix|] == CliPrefix
  }

  /** The tag `cli-<n>`. */
  function CliTag(n: nat): string {
    CliPrefix + NatToString(n)
  }

  /** `last(split(s, "-"))`: the text after the last dash, or all of `s` when
      it has none. */
  function LastSegment(s: string): (r: string)
    ensures |r| <= |s| && forall i :: 0 <= i < |r| ==> r[i] != '-'
    decreases |s|
  {
    if s == [] || s[|s| - 1] == '-' then []
    else LastSegment(s[..|s| - 1]) + [s[|s| - 1]]
  }

  /** The last segment of `p-seg` is `seg` when `seg` has no dash. */
  lemma {:induction false} LastSegmentAfterDash(p: string, seg: string)
    requires forall i :: 0 <= i < |seg| ==> seg[i] != '-'
    ensures LastSegment(p + "-" + seg) == seg
    decreases |seg|
  {
    var s := p + "-" + seg;
    if seg != [] {
      var shorter := seg[..|seg| - 1];
      assert s[..|s| - 1] == p + "-" + shorter;
      LastSegmentAfterDash(p, shorter);
      assert seg == shorter + [seg[|seg| - 1]];
    }
  }

  /** The number a tag carries: `parseInt(last(split(t, "-")))`. */
  function TagNumber(t: string): JsNum {
    ParseInt(LastSegment(t))
  }

  /** `cli-<n>` carries `n`. */
  lemma TagNumberOf(n: nat)
    ensures IsCliTag(CliTag(n))
    ensures LastSegment(CliTag(n)) == NatToString(n)
    ensures TagNumber(CliTag(n)) == Fin(n)
  {
    var digits := NatToString(n);
    NatToStringDigits(n);
    assert CliTag(n) == "cli" + "-" + digits;
    LastSegmentAfterDash("cli", digits);
    ParseIntRoundTrip(n, "");
    assert IntToString(n) + "" == digits;
  }

  // ---------------------------------------------------------------------
  // String order

  /** JavaScript `a < b` on strings, from position `i` on: the first
      differing character decides, and a proper prefix is smaller. */
  predicate StrLessFrom(a: string, b: string, i: nat)
    requires i <= |a| && i <= |b|
    decreases |a| - i
  {
    |b| > i && (|a| == i || a[i] < b[i] || (a[i] == b[i] && StrLessFrom(a, b, i + 1)))
  }

  /** JavaScript `a < b` on strings. */
  predicate StrLess(a: string, b: string) {
    StrLessFrom(a, b, 0)
  }

  lemma {:induction false} StrLessIrreflexive(a: string, i: nat)
    requires i <= |a|
    ensures !StrLessFrom(a, a, i)
    decreases |a| - i
  {
    if i < |a| {
      StrLessIrreflexive(a, i + 1);
    }
  }

  lemma {:induction false} StrLessTransitive(a: string, b: string, c: string, i: nat)
    requires i <= |a| && i <= |b| && i <= |c|
    requires StrLessFrom(a, b, i) && StrLessFrom(b, c, i)
    ensures StrLessFrom(a, c, i)
    decreases |a| - i
  {
    if |a| > i && a[i] == b[i] && b[i] == c[i] {
      StrLessTransitive(a, b, c, i + 1);
    }
  }

  lemma {:induction false} StrLessTotal(a: string, b: string, i: nat)
    requires i <= |a| && i <= |b| && a != b
    requires forall k :: 0 <= k < i ==> a[k] == b[k]
    ensures StrLessFrom(a, b, i) || StrLessFrom(b, a, i)
    decreases |a| - i
  {
    if |a| == i && |b| == i {
      assert false;
    } else if |a| > i && |b| > i && a[i] == b[i] {
      StrLessTotal(a, b, i + 1);
    }
  }

  // ---------------------------------------------------------------------
  // The latest tag

  /** `tags.filter(t => t.startsWith("cli-"))`. */
  function CliTags(tags: seq<string>): (r: seq<string>)
    ensures forall t :: t in r <==> t in tags && IsCliTag(t)
    decreases |tags|
  {
    if tags == [] then []
    else
      var r := CliTags(tags[..|tags| - 1]);
      assert forall t :: t in tags <==> t in tags[..|tags| - 1] || t == tags[|tags| - 1];
      if IsCliTag(tags[|tags| - 1]) then r + [tags[|tags| - 1]] else r
  }

  /** lodash `maxBy(tags, t => last(split(t, "-")))`: walking left to right,
      a tag replaces the best so far only when its last segment is strictly
      greater as a string. */
  function MaxBySegment(tags: seq<string>): (r: Option<string>)
    ensures r.None? <==> tags == []
    ensures r.Some? ==> r.value in tags
    decreases |tags|
  {
    if tags == [] then None
    else
      var best := MaxBySegment(tags[..|tags| - 1]);
      var t := tags[|tags| - 1];
      assert best.Some? ==> best.value in tags by {
        assert forall x :: x in tags[..|tags| - 1] ==> x in tags;
      }
      if best.None? || StrLess(LastSegment(best.value), LastSegment(t)) then Some(t) else best
  }

  /** No tag's last segment is greater than that of the one `maxBy` picks. */
  lemma {:induction false} MaxBySegmentGreatest(tags: seq<string>, t: string)
    requires t in tags
    ensures MaxBySegment(tags).Some?
    ensures !StrLess(LastSegment(MaxBySegment(tags).value), LastSegment(t))
    decreases |tags|
  {
    var prefix := tags[..|tags| - 1];
    var last := tags[|tags| - 1];
    var best := MaxBySegment(prefix);
    var r := MaxBySegment(tags).value;
    if t == last {
      if r != last {
        assert !StrLess(LastSegment(best.value), LastSegment(last));
      } else {
        StrLessIrreflexive(LastSegment(last), 0);
      }
    } else {
      assert t in prefix;
      MaxBySegmentGreatest(prefix, t);
      if r == last && r != best.value {
        if StrLess(LastSegment(last), LastSegment(t)) {
          StrLessTransitive(LastSegment(best.value), LastSegment(last), LastSegment(t), 0);
        }
      }
    }
  }

  /** `maxBy` keeps the first of several tags with the greatest last segment:
      every tag whose last segment equals that of the one it picks comes at or
      after the picked tag. */
  lemma {:induction false} MaxBySegmentFirst(tags: seq<string>, j: nat)
    requires j < |tags| && tags != []
    requires LastSegment(tags[j]) == LastSegment(MaxBySegment(tags).value)
    ensures MaxBySegment(tags).value in tags[..j + 1]
    decreases |tags|
  {
    var n := |tags| - 1;
    var prefix := tags[..n];
    var best := MaxBySegment(prefix);
    if best.None? || StrLess(LastSegment(best.value), LastSegment(tags[n])) {
      if j < n {
        assert tags[j] in prefix;
        MaxBySegmentGreatest(prefix, tags[j]);
        assert false;
      }
      assert tags[..j + 1] == tags;
    } else if j < n {
      assert prefix[j] == tags[j];
      MaxBySegmentFirst(prefix, j);
      assert prefix[..j + 1] == tags[..j + 1];
    } else {
      assert best.value in prefix;
      assert tags[..j + 1] == tags;
    }
  }

  /** `findLatestTag(tags)`: of the `cli-` tags, the one whose last segment is
      greatest as a string, the first such; none when there is no `cli-` tag. */
  function FindLatestTag(tags: seq<string>): (r: Option<string>)
    ensures r.None? <==> forall t :: t in tags ==> !IsCliTag(t)
    ensures r.Some? ==> r.value in tags && IsCliTag(r.value)
  {
    var cli := CliTags(tags);
    assert cli == [] <==> forall t :: t in tags ==> !IsCliTag(t) by {
      if cli != [] { assert cli[0] in cli; }
    }
    MaxBySegment(cli)
  }

  /** No `cli-` tag has a last segment greater, as a string, than the latest. */
  lemma FindLatestTagGreatest(tags: seq<string>, t: string)
    requires t in tags && IsCliTag(t)
    ensures FindLatestTag(tags).Some?
    ensures !StrLess(LastSegment(FindLatestTag(tags).value), LastSegment(t))
  {
    MaxBySegmentGreatest(CliTags(tags), t);
  }

  // ---------------------------------------------------------------------
  // The next tag

  /** `generateNextTag(latest)`: `cli-1` when there is no latest tag (or it is
      empty); otherwise `cli-` followed by the latest tag's number plus one,
      which is `cli-NaN` when its last segment does not start with a number. */
  function GenerateNextTag(latest: Option<string>): (r: string)
    ensures IsCliTag(r)
    ensures latest.None? || latest.value == "" ==> r == DefaultNextImageTag
  {
    if latest.None? || latest.value == "" then DefaultNextImageTag
    else CliPrefix + Show(TagNumber(latest.value).Plus(Fin(1)))
  }

  /** The tag after `cli-<n>` is `cli-<n+1>`. */
  lemma NextTagAfter(n: nat)
    ensures GenerateNextTag(Some(CliTag(n))) == CliTag(n + 1)
  {
    TagNumberOf(n);
  }

  /** A tag whose last segment is not a number is followed by `cli-NaN`. */
  lemma NextTagMalformed()
    ensures GenerateNextTag(Some("cli-latest")) == "cli-NaN"
  {
    assert "cli-latest" == "cli" + "-" + "latest";
    LastSegmentAfterDash("cli", "latest");
    assert SpaceRun("latest", 0) == 0 && DigitRun("latest", 0) == 0;
  }

  // ---------------------------------------------------------------------
  // String order on numbered tags

  /** The tags `cli-<n>` for the given numbers, in order. */
  function Tags(ns: seq<nat>): (r: seq<string>)
    ensures |r| == |ns| && forall i :: 0 <= i < |ns| ==> r[i] == CliTag(ns[i])
  {
    seq(|ns|, i requires 0 <= i < |ns| => CliTag(ns[i]))
  }

  /** Every numbered tag is a `cli-` tag. */
  lemma {:induction false} CliTagsOfTags(ns: seq<nat>)
    ensures CliTags(Tags(ns)) == Tags(ns)
    decreases |ns|
  {
    if ns != [] {
      var prefix := ns[..|ns| - 1];
      CliTagsOfTags(prefix);
      TagsPrefix(ns);
      var last := CliTag(ns[|ns| - 1]);
      assert IsCliTag(last) by { assert last[..|CliPrefix|] == CliPrefix; }
    }
  }

  lemma TagsPrefix(ns: seq<nat>)
    requires ns != []
    ensures Tags(ns)[..|ns| - 1] == Tags(ns[..|ns| - 1])
  {
  }

  /** `maxBy` of two tags keeps the first unless the second's last segment is
      greater. */
  lemma MaxBySegmentTwo(a: string, b: string)
    ensures MaxBySegment([a, b]) == if StrLess(LastSegment(a), LastSegment(b)) then Some(b) else Some(a)
  {
    assert [a, b][..1] == [a];
    assert [a][..0] == [];
  }

  /** With `cli-9` and `cli-10` pushed, the latest tag is `cli-9`, because "9"
      is greater than "10" as a string, and the next tag is `cli-10` again. */
  lemma TagCollision()
    ensures FindLatestTag(Tags([9, 10])) == Some(CliTag(9))
    ensures GenerateNextTag(FindLatestTag(Tags([9, 10]))) == CliTag(10)
    ensures CliTag(10) in Tags([9, 10])
  {
    var tags := Tags([9, 10]);
    assert tags == [CliTag(9), CliTag(10)];
    CliTagsOfTags([9, 10]);
    TagNumberOf(9);
    TagNumberOf(10);
    assert NatToString(10) == "10" && NatToString(9) == "9";
    assert !StrLess("9", "10");
    MaxBySegmentTwo(CliTag(9), CliTag(10));
    NextTagAfter(9);
  }

  // ---------------------------------------------------------------------
  // The latest tag by number

  /** `maxBy(tags, t => parseInt(last(split(t, "-"))))`: the same walk, with
      the tag numbers compared as numbers; a tag without a number is skipped. */
  function MaxByNumber(tags: seq<string>): (r: Option<string>)
    ensures r.Some? ==> r.value in tags && TagNumber(r.value).Fin?
    decreases |tags|
  {
    if tags == [] then None
    else
      var best := MaxByNumber(tags[..|tags| - 1]);
      var t := tags[|tags| - 1];
      assert best.Some? ==> best.value in tags by {
        assert forall x :: x in tags[..|tags| - 1] ==> x in tags;
      }
      if TagNumber(t).NaN? then best
      else if best.None? || TagNumber(best.value).v < TagNumber(t).v then Some(t)
      else best
  }

  /** The tag picked has the greatest number among the tags with one. */
  lemma {:induction false} MaxByNumberGreatest(tags: seq<string>, t: string)
    requires t in tags && TagNumber(t).Fin?
    ensures MaxByNumber(tags).Some?
    ensures TagNumber(t).v <= TagNumber(MaxByNumber(tags).value).v
    decreases |tags|
  {
    var prefix := tags[..|tags| - 1];
    if t != tags[|tags| - 1] {
      assert t in prefix;
      MaxByNumberGreatest(prefix, t);
    }
  }

  /** `findLatestTag` comparing tag numbers as numbers. */
  function FindLatestTagByNumber(tags: seq<string>): (r: Option<string>)
    ensures r.Some? ==> r.value in tags && IsCliTag(r.value)
  {
    MaxByNumber(CliTags(tags))
  }

  /** The latest of a list of numbered tags, by number, is one carrying the
      greatest number. */
  lemma LatestByNumber(ns: seq<nat>) returns (k: nat)
    requires ns != []
    ensures k < |ns| && FindLatestTagByNumber(Tags(ns)) == Some(CliTag(ns[k]))
    ensures forall i :: 0 <= i < |ns| ==> ns[i] <= ns[k]
  {
    var tags := Tags(ns);
    CliTagsOfTags(ns);
    TagNumberOf(ns[0]);
    MaxByNumberGreatest(tags, tags[0]);
    var latest := MaxByNumber(tags).value;
    k :| 0 <= k < |ns| && tags[k] == latest;
    TagNumberOf(ns[k]);
    forall i | 0 <= i < |ns|
      ensures ns[i] <= ns[k]
    {
      TagNumberOf(ns[i]);
      MaxByNumberGreatest(tags, tags[i]);
    }
  }

  /** Comparing by number, the next tag after a list of `cli-<n>` tags is none
      of them. */
  lemma NextTagFresh(ns: seq<nat>)
    ensures GenerateNextTag(FindLatestTagByNumber(Tags(ns))) !in Tags(ns)
  {
    if ns != [] {
      var k := LatestByNumber(ns);
      var m := ns[k];
      NextTagAfter(m);
      forall i | 0 <= i < |ns|
        ensures Tags(ns)[i] != CliTag(m + 1)
      {
        TagNumberOf(ns[i]);
        TagNumberOf(m + 1);
      }
    }
  }
}
