/** String splitting and joining on a single separator character, with the
    semantics of JavaScript's `String.prototype.split(sep)`. */
module Text {

  /** `s` does not contain `c`. */
  predicate Free(s: string, c: char)
  {
    forall i :: 0 <= i < |s| ==> s[i] != c
  }

  /** No part contains the separator. */
  predicate NoSeparator(parts: seq<string>, sep: char)
  {
    forall i :: 0 <= i < |parts| ==> Free(parts[i], sep)
  }

  /** The parts of `s` between occurrences of `sep`; never empty. */
  function Split(s: string, sep: char): (parts: seq<string>)
    ensures |parts| >= 1
    ensures NoSeparator(parts, sep)
    ensures |parts| == 1 <==> Free(s, sep)
    ensures |parts[0]| <= |s| && s[..|parts[0]|] == parts[0]
  {
    if |s| == 0 then [""]
    else
      var rest := Split(s[1..], sep);
      if s[0] == sep then [""] + rest
      else
        assert forall i :: 1 <= i < |rest| ==> Free(rest[i], sep);
        [[s[0]] + rest[0]] + rest[1..]
  }

  /** Inverse of `Split`: the parts glued back together with `sep`. */
  function Join(parts: seq<string>, sep: char): string
    requires |parts| >= 1
  {
    if |parts| == 1 then parts[0] else parts[0] + [sep] + Join(parts[1..], sep)
  }

  /** A separator-free string is a single part. */
  lemma {:induction false} SplitFree(s: string, sep: char)
    requires Free(s, sep)
    ensures Split(s, sep) == [s]
    decreases |s|
  {
    if |s| > 0 {
      SplitFree(s[1..], sep);
      assert [s[0]] + s[1..] == s;
    }
  }

  /** Splitting peels off everything up to the first separator. */
  lemma {:induction false} SplitCons(a: string, tail: string, sep: char)
    requires Free(a, sep)
    ensures Split(a + [sep] + tail, sep) == [a] + Split(tail, sep)
    decreases |a|
  {
    var s := a + [sep] + tail;
    if |a| > 0 {
      assert s[1..] == a[1..] + [sep] + tail;
      SplitCons(a[1..], tail, sep);
      assert [a[0]] + a[1..] == a;
    } else {
      assert s[1..] == tail;
    }
  }

  /** Joining the parts of `s` gives `s` back. */
  lemma {:induction false} JoinSplit(s: string, sep: char)
    ensures Join(Split(s, sep), sep) == s
    decreases |s|
  {
    if |s| > 0 {
      JoinSplit(s[1..], sep);
      var rest := Split(s[1..], sep);
      if s[0] != sep && |rest| > 1 {
        assert rest == [rest[0]] + rest[1..];
        assert Join(rest, sep) == rest[0] + [sep] + Join(rest[1..], sep);
      }
      assert s == [s[0]] + s[1..];
    }
  }

  /** Splitting a joined sequence of separator-free parts gives the parts back. */
  lemma {:induction false} SplitJoin(parts: seq<string>, sep: char)
    requires |parts| >= 1
    requires NoSeparator(parts, sep)
    ensures Split(Join(parts, sep), sep) == parts
    decreases |parts|
  {
    if |parts| == 1 {
      SplitFree(parts[0], sep);
    } else {
      var tail := Join(parts[1..], sep);
      assert Join(parts, sep) == parts[0] + [sep] + tail;
      SplitCons(parts[0], tail, sep);
      assert NoSeparator(parts[1..], sep) by {
        forall j | 0 <= j < |parts[1..]| ensures Free(parts[1..][j], sep) {
          assert parts[1..][j] == parts[j + 1];
        }
      }
      SplitJoin(parts[1..], sep);
      assert [parts[0]] + parts[1..] == parts;
    }
  }

  /** `Split` of two separator-free strings joined by one separator. */
  lemma SplitPair(a: string, b: string, sep: char)
    requires Free(a, sep) && Free(b, sep)
    ensures Split(a + [sep] + b, sep) == [a, b]
  {
    SplitCons(a, b, sep);
    SplitFree(b, sep);
  }
}
