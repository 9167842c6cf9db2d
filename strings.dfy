/**
 * The string operations the stores rely on, with JavaScript's exact behaviour:
 * `startsWith`, `endsWith('/')`, the clamping `substring(start)`, `split` on one
 * separator character and a character-for-character `replace`.
 */
module Strings {

  /** `s.startsWith(prefix)`. */
  predicate StartsWith(s: string, prefix: string) {
    |prefix| <= |s| && s[..|prefix|] == prefix
  }

  /** `s.endsWith('/')`. */
  predicate EndsWithSlash(s: string) {
    |s| > 0 && s[|s| - 1] == '/'
  }

  /**
   * `s` with a `/` appended unless it already ends with one: `fileUtil.ensureEndingSlash`
   * and the normalisation in the `MappedFileSystemEntry` constructor.
   */
  function EnsureEndingSlash(s: string): (r: string)
    ensures EndsWithSlash(r)
    ensures EndsWithSlash(s) ==> r == s
    ensures !EndsWithSlash(s) ==> r == s + "/"
  {
    if EndsWithSlash(s) then s else s + "/"
  }

  /** `s.substring(start)`: a start past the end gives the empty string. */
  function Substring(s: string, start: nat): (r: string)
    ensures start <= |s| ==> r == s[start..]
    ensures start >= |s| ==> r == ""
  {
    if start <= |s| then s[start..] else ""
  }

  /**
   * `s.split(sep)` for a one-character separator: the pieces between separators,
   * in order, including empty ones; never an empty list.
   */
  function Split(s: string, sep: char): (parts: seq<string>)
    ensures |parts| >= 1
    ensures forall i :: 0 <= i < |parts| ==> sep !in parts[i]
    ensures |parts| == 1 + |SepCount(s, sep)|
    decreases |s|
  {
    if |s| == 0 then [""]
    else
      var rest := Split(s[1..], sep);
      if s[0] == sep then [""] + rest
      else [[s[0]] + rest[0]] + rest[1..]
  }

  /** The positions of `sep` in `s`, used only to state how many pieces `Split` gives. */
  function SepCount(s: string, sep: char): (r: seq<nat>)
    ensures |r| <= |s|
    decreases |s|
  {
    if |s| == 0 then []
    else if s[0] == sep then [0] + SepCount(s[1..], sep)
    else SepCount(s[1..], sep)
  }

  /** `parts.join(sep)`, the inverse of `Split`. */
  function Join(parts: seq<string>, sep: char): string
    requires |parts| >= 1
    decreases |parts|
  {
    if |parts| == 1 then parts[0] else parts[0] + [sep] + Join(parts[1..], sep)
  }

  /** Joining the pieces of a split gives the string back. */
  lemma {:induction false} JoinSplit(s: string, sep: char)
    ensures Join(Split(s, sep), sep) == s
    decreases |s|
  {
    if |s| > 0 {
      JoinSplit(s[1..], sep);
      var rest := Split(s[1..], sep);
      if s[0] == sep {
        assert Split(s, sep) == [""] + rest;
        assert ([""] + rest)[1..] == rest;
      } else {
        var parts := Split(s, sep);
        assert parts == [[s[0]] + rest[0]] + rest[1..];
        if |rest| == 1 {
          assert parts == [[s[0]] + rest[0]];
        } else {
          assert parts[1..] == rest[1..];
          assert Join(rest, sep) == rest[0] + [sep] + Join(rest[1..], sep);
        }
      }
    }
  }

  /** Splitting joined pieces gives the pieces back, when no piece holds the separator. */
  lemma {:induction false} SplitJoin(parts: seq<string>, sep: char)
    requires |parts| >= 1
    requires forall i :: 0 <= i < |parts| ==> sep !in parts[i]
    ensures Split(Join(parts, sep), sep) == parts
    decreases |parts|, |parts[0]|
  {
    if |parts[0]| > 0 {
      var tail := [parts[0][1..]] + parts[1..];
      DropFirstChar(parts, sep);
      SplitJoin(tail, sep);
      SplitJoinFirst(parts, sep);
    } else if |parts| > 1 {
      SplitJoin(parts[1..], sep);
      var s := Join(parts, sep);
      assert s == [sep] + Join(parts[1..], sep);
      assert s[1..] == Join(parts[1..], sep);
      assert parts == [""] + parts[1..];
    }
  }

  /** Dropping the first character of the first piece keeps every piece free of the separator. */
  lemma DropFirstChar(parts: seq<string>, sep: char)
    requires |parts| >= 1 && |parts[0]| > 0
    requires forall i :: 0 <= i < |parts| ==> sep !in parts[i]
    ensures var tail := [parts[0][1..]] + parts[1..];
      |tail| == |parts| && |tail[0]| < |parts[0]| && forall i :: 0 <= i < |tail| ==> sep !in tail[i]
  {
    var p0 := parts[0];
    var tail := [p0[1..]] + parts[1..];
    forall i | 0 <= i < |tail| ensures sep !in tail[i] {
      if i == 0 { assert forall c :: c in p0[1..] ==> c in p0; } else { assert tail[i] == parts[i]; }
    }
  }

  /** The step of `SplitJoin` for a first piece that is not empty. */
  lemma SplitJoinFirst(parts: seq<string>, sep: char)
    requires |parts| >= 1 && |parts[0]| > 0 && sep !in parts[0]
    requires Split(Join([parts[0][1..]] + parts[1..], sep), sep) == [parts[0][1..]] + parts[1..]
    ensures Split(Join(parts, sep), sep) == parts
  {
    var p0 := parts[0];
    var tail := [p0[1..]] + parts[1..];
    assert tail[0] == p0[1..] && tail[1..] == parts[1..];
    var s := Join(parts, sep);
    JoinFirstChar(parts, sep);
    assert s[0] == p0[0] && s[1..] == Join(tail, sep);
    assert s[0] != sep by { assert p0[0] in p0; }
    assert [p0[0]] + p0[1..] == p0;
    assert Split(s, sep) == [[s[0]] + tail[0]] + tail[1..];
    assert parts == [p0] + parts[1..];
  }

  /** A join starts with the first character of its first piece, then joins the rest. */
  lemma JoinFirstChar(parts: seq<string>, sep: char)
    requires |parts| >= 1 && |parts[0]| > 0
    ensures Join(parts, sep) == [parts[0][0]] + Join([parts[0][1..]] + parts[1..], sep)
  {
    var p0 := parts[0];
    assert parts == [p0] + parts[1..];
    assert [p0[0]] + p0[1..] == p0;
    JoinCons(p0, parts[1..], sep);
    JoinCons(p0[1..], parts[1..], sep);
    if parts[1..] != [] {
      AppendAssoc([p0[0]], p0[1..], [sep] + Join(parts[1..], sep));
    }
  }

  /** A trailing separator adds one empty piece at the end. */
  lemma {:induction false} SplitTrailing(s: string, sep: char)
    ensures Split(s + [sep], sep) == Split(s, sep) + [""]
    decreases |s|
  {
    if |s| == 0 {
      assert [] + [sep] == [sep];
      assert Split([sep], sep) == [""] + Split([], sep);
    } else {
      assert (s + [sep])[1..] == s[1..] + [sep];
      SplitTrailing(s[1..], sep);
    }
  }

  /** Appending is associative. */
  lemma AppendAssoc<T>(a: seq<T>, b: seq<T>, c: seq<T>)
    ensures (a + b) + c == a + (b + c)
  {
  }

  /** How `Join` unfolds when pieces are listed as a head and the rest. */
  lemma JoinCons(head: string, rest: seq<string>, sep: char)
    ensures Join([head] + rest, sep) == if rest == [] then head else head + [sep] + Join(rest, sep)
  {
    assert ([head] + rest)[0] == head;
    assert ([head] + rest)[1..] == rest;
  }

  /** `s.replace(/x/g, y)` for single characters `x` and `y`. */
  function ReplaceAll(s: string, x: char, y: char): (r: string)
    ensures |r| == |s|
    ensures forall i :: 0 <= i < |s| ==> r[i] == if s[i] == x then y else s[i]
  {
    if |s| == 0 then "" else [if s[0] == x then y else s[0]] + ReplaceAll(s[1..], x, y)
  }
}
