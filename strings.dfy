/**
  String helpers with the meaning JavaScript gives them: `split` on a single
  separator character, `join` with a separator string, prefix tests and
  substring containment. Each is a plain recursive function; the lemmas tie
  `Split` and `Join` together in both directions.
 */
module Strings {

  /** True when `p` is a prefix of `s`. */
  predicate StartsWith(s: string, p: string) {
    |p| <= |s| && s[..|p|] == p
  }

  /** `p` occurs in `s` starting at index `i`. */
  predicate OccursAt(s: string, p: string, i: int) {
    0 <= i && i + |p| <= |s| && s[i..i + |p|] == p
  }

  /** True when `p` occurs somewhere in `s` (`s.includes(p)`). */
  predicate Contains(s: string, p: string) {
    exists i | 0 <= i <= |s| - |p| :: OccursAt(s, p, i)
  }

  /** A string starts with its prefixes, so contains them. */
  lemma ContainsPrefix(s: string, p: string)
    requires StartsWith(s, p)
    ensures Contains(s, p)
  {
    assert OccursAt(s, p, 0);
  }

  /** Every character of a string that occurs in `s` is a character of `s`. */
  lemma ContainsOnlyCharsOf(s: string, p: string, c: char)
    requires Contains(s, p)
    requires c in p
    ensures c in s
  {
    var i :| 0 <= i <= |s| - |p| && OccursAt(s, p, i);
    var k :| 0 <= k < |p| && p[k] == c;
    assert s[i..i + |p|][k] == s[i + k];
  }

  /**
    `s.split(sep)` for a one-character separator: the maximal runs of `s`
    that do not contain `sep`, in order. There is always at least one
    segment (the empty string splits into `[""]`), no segment holds the
    separator, and the first segment is the text before the first `sep`.
   */
  function Split(s: string, sep: char): (r: seq<string>)
    ensures |r| >= 1
    ensures forall i :: 0 <= i < |r| ==> sep !in r[i]
    ensures StartsWith(s, r[0])
    ensures |r[0]| < |s| ==> s[|r[0]|] == sep
    ensures |r| == 1 <==> sep !in s
    decreases |s|
  {
    if |s| == 0 then [""]
    else if s[0] == sep then [""] + Split(s[1..], sep)
    else
      var rest := Split(s[1..], sep);
      [[s[0]] + rest[0]] + rest[1..]
  }

  /** `segments.join(sep)`. */
  function Join(segments: seq<string>, sep: string): string
    decreases |segments|
  {
    if |segments| == 0 then ""
    else if |segments| == 1 then segments[0]
    else segments[0] + sep + Join(segments[1..], sep)
  }

  /** The last element of a non-empty sequence. */
  function Last<T>(s: seq<T>): T
    requires |s| > 0
  {
    s[|s| - 1]
  }

  /** Joining with two segments more splits off the head. */
  lemma JoinCons(x: string, rest: seq<string>, sep: string)
    requires |rest| >= 1
    ensures Join([x] + rest, sep) == x + sep + Join(rest, sep)
  {
    assert ([x] + rest)[1..] == rest;
  }

  /** Putting a character in front of the first segment puts it in front of the join. */
  lemma JoinPrepend(c: char, segments: seq<string>, sep: string)
    requires |segments| >= 1
    ensures Join([[c] + segments[0]] + segments[1..], sep) == [c] + Join(segments, sep)
  {
    if |segments| > 1 {
      JoinCons([c] + segments[0], segments[1..], sep);
    }
  }

  /** Joining the pieces of a split gives back the original string. */
  lemma {:induction false} JoinSplit(s: string, sep: char)
    ensures Join(Split(s, sep), [sep]) == s
    decreases |s|
  {
    if |s| > 0 {
      var rest := Split(s[1..], sep);
      JoinSplit(s[1..], sep);
      if s[0] == sep {
        JoinCons("", rest, [sep]);
      } else {
        JoinPrepend(s[0], rest, [sep]);
      }
      assert s == [s[0]] + s[1..];
    }
  }

  /**
    Splitting a join of separator-free segments gives back the segments:
    a path is determined by its segments and vice versa.
   */
  lemma {:induction false} SplitJoin(segments: seq<string>, sep: char)
    requires |segments| >= 1
    requires forall i :: 0 <= i < |segments| ==> sep !in segments[i]
    ensures Split(Join(segments, [sep]), sep) == segments
    decreases |segments|, |segments[0]|
  {
    var x := segments[0];
    if |segments| == 1 {
      SplitNoSeparator(x, sep);
    } else {
      var rest := segments[1..];
      JoinCons(x, rest, [sep]);
      var s := Join(segments, [sep]);
      assert s == x + [sep] + Join(rest, [sep]);
      if |x| == 0 {
        assert s == [sep] + Join(rest, [sep]);
        assert s[1..] == Join(rest, [sep]);
        SplitJoin(rest, sep);
      } else {
        var shorter := [x[1..]] + rest;
        JoinCons(x[1..], rest, [sep]);
        assert s[1..] == Join(shorter, [sep]);
        assert s[0] == x[0];
        assert forall i :: 0 <= i < |shorter| ==> sep !in shorter[i] by {
          forall i | 0 <= i < |shorter| ensures sep !in shorter[i] {
            if i == 0 {
              assert forall c :: c in x[1..] ==> c in x;
            } else {
              assert shorter[i] == segments[i];
            }
          }
        }
        SplitJoin(shorter, sep);
        assert [x[0]] + x[1..] == x;
        assert segments == [x] + rest;
      }
    }
  }

  /** A string without the separator is a single segment. */
  lemma {:induction false} SplitNoSeparator(s: string, sep: char)
    requires sep !in s
    ensures Split(s, sep) == [s]
    decreases |s|
  {
    if |s| > 0 {
      assert sep !in s[1..] by {
        assert forall c :: c in s[1..] ==> c in s;
      }
      SplitNoSeparator(s[1..], sep);
      assert [s[0]] + s[1..] == s;
    }
  }
}
