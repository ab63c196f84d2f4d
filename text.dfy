/** The string operations the explorer relies on: lower-casing, `includes`,
    `split('/')`, `join('/')` and the last path segment. Case folding is
    ASCII-only. */
module Text {

  function LowerChar(c: char): char {
    if 'A' <= c <= 'Z' then (c as int + 32) as char else c
  }

  /** `toLowerCase`, restricted to ASCII letters. */
  function Lower(s: string): (r: string)
    ensures |r| == |s|
    ensures forall i :: 0 <= i < |s| ==> r[i] == LowerChar(s[i])
  {
    seq(|s|, i requires 0 <= i < |s| => LowerChar(s[i]))
  }

  predicate StartsWith(s: string, prefix: string) {
    |prefix| <= |s| && s[..|prefix|] == prefix
  }

  /** `s.includes(needle)`: scans `s` for a position where `needle` starts. */
  function Includes(s: string, needle: string): bool
    decreases |s|
  {
    StartsWith(s, needle) || (|s| > 0 && Includes(s[1..], needle))
  }

  /** `needle` occurs in `s` starting at offset `i`. */
  predicate OccursAt(s: string, needle: string, i: int) {
    0 <= i <= |s| - |needle| && s[i..i + |needle|] == needle
  }

  lemma {:induction false} OccursAtIncludes(s: string, needle: string, i: int)
    requires OccursAt(s, needle, i)
    ensures Includes(s, needle)
    decreases i
  {
    if i == 0 {
      assert s[..|needle|] == s[0..|needle|];
    } else {
      assert s[i..i + |needle|] == s[1..][i - 1..i - 1 + |needle|];
      OccursAtIncludes(s[1..], needle, i - 1);
    }
  }

  /** `Includes` agrees with the plain definition of a substring occurrence. */
  lemma {:induction false} IncludesIffOccurs(s: string, needle: string)
    ensures Includes(s, needle) <==> exists i :: OccursAt(s, needle, i)
    decreases |s|
  {
    forall i | OccursAt(s, needle, i) ensures Includes(s, needle) {
      OccursAtIncludes(s, needle, i);
    }
    if StartsWith(s, needle) {
      assert OccursAt(s, needle, 0);
    } else if |s| > 0 && Includes(s[1..], needle) {
      IncludesIffOccurs(s[1..], needle);
      var i :| OccursAt(s[1..], needle, i);
      assert s[i + 1..i + 1 + |needle|] == s[1..][i..i + |needle|];
      assert OccursAt(s, needle, i + 1);
    }
  }

  /** Every string includes the empty string. */
  lemma IncludesEmpty(s: string)
    ensures Includes(s, "")
  {
    assert StartsWith(s, "");
  }

  /** `s.split(sep)`: the maximal runs of non-separator characters between
      separators, so there is always one more part than separators. */
  function Split(s: string, sep: char): (parts: seq<string>)
    ensures |parts| >= 1
    ensures forall i :: 0 <= i < |parts| ==> sep !in parts[i]
    decreases |s|
  {
    if s == [] then [[]]
    else
      var init := Split(s[..|s| - 1], sep);
      if s[|s| - 1] == sep then init + [[]]
      else init[..|init| - 1] + [init[|init| - 1] + [s[|s| - 1]]]
  }

  /** `parts.join(sep)`; joining no parts gives the empty string. */
  function Join(parts: seq<string>, sep: char): string
  {
    if |parts| == 0 then []
    else if |parts| == 1 then parts[0]
    else Join(parts[..|parts| - 1], sep) + [sep] + parts[|parts| - 1]
  }

  /** Extending the last part extends the join by the same characters. */
  lemma JoinExtendLast(parts: seq<string>, sep: char, c: char)
    requires |parts| >= 1
    ensures Join(parts[..|parts| - 1] + [parts[|parts| - 1] + [c]], sep) == Join(parts, sep) + [c]
  {
    var front, last := parts[..|parts| - 1], parts[|parts| - 1];
    var extended := front + [last + [c]];
    assert extended[..|extended| - 1] == front;
    if |parts| > 1 {
      assert parts[..|parts| - 1] == front;
    }
  }

  /** Adding an empty last part appends one separator to the join. */
  lemma JoinEmptyLast(parts: seq<string>, sep: char)
    requires |parts| >= 1
    ensures Join(parts + [[]], sep) == Join(parts, sep) + [sep]
  {
    var extended := parts + [[]];
    assert extended[..|extended| - 1] == parts;
  }

  /** Joining the parts of a split gives back the original string. */
  lemma {:induction false} JoinSplit(s: string, sep: char)
    ensures Join(Split(s, sep), sep) == s
  {
    if s != [] {
      var prefix, c := s[..|s| - 1], s[|s| - 1];
      JoinSplit(prefix, sep);
      assert s == prefix + [c];
      if c == sep {
        JoinEmptyLast(Split(prefix, sep), sep);
      } else {
        JoinExtendLast(Split(prefix, sep), sep, c);
      }
    }
  }

  lemma {:induction false} SplitNoSeparator(s: string, sep: char)
    requires sep !in s
    ensures Split(s, sep) == [s]
  {
    if s != [] {
      var prefix, c := s[..|s| - 1], s[|s| - 1];
      assert sep !in prefix && c != sep;
      SplitNoSeparator(prefix, sep);
      var init := Split(prefix, sep);
      assert init[..|init| - 1] == [];
      assert prefix + [c] == s;
    }
  }

  lemma {:induction false} SplitAfterSeparator(x: string, sep: char, y: string)
    requires sep !in y
    ensures Split(x + [sep] + y, sep) == Split(x, sep) + [y]
  {
    var s := x + [sep] + y;
    if y == [] {
      assert s[..|s| - 1] == x;
    } else {
      var y', c := y[..|y| - 1], y[|y| - 1];
      assert sep !in y' && c != sep;
      SplitAfterSeparator(x, sep, y');
      assert s[..|s| - 1] == x + [sep] + y';
      assert s[|s| - 1] == c;
      var init := Split(x + [sep] + y', sep);
      assert init[..|init| - 1] == Split(x, sep);
      assert y' + [c] == y;
    }
  }

  /** Splitting a join of separator-free parts gives back the parts. */
  lemma {:induction false} SplitJoin(parts: seq<string>, sep: char)
    requires |parts| >= 1
    requires forall i :: 0 <= i < |parts| ==> sep !in parts[i]
    ensures Split(Join(parts, sep), sep) == parts
  {
    if |parts| == 1 {
      SplitNoSeparator(parts[0], sep);
    } else {
      var init := parts[..|parts| - 1];
      SplitJoin(init, sep);
      SplitAfterSeparator(Join(init, sep), sep, parts[|parts| - 1]);
      assert init + [parts[|parts| - 1]] == parts;
    }
  }

  /** `path.split('/').pop() || ''`: the last segment of a path. */
  function LastSegment(path: string): string {
    var parts := Split(path, '/');
    parts[|parts| - 1]
  }

  /** The last segment is the suffix of the path after its last '/', or the
      whole path when it holds no '/'. */
  lemma {:induction false} LastSegmentIsSuffix(path: string)
    ensures var name := LastSegment(path);
            && '/' !in name
            && |name| <= |path|
            && path[|path| - |name|..] == name
            && (|name| == |path| || path[|path| - |name| - 1] == '/')
  {
    if path != [] {
      var init := path[..|path| - 1];
      LastSegmentIsSuffix(init);
      var name := LastSegment(path);
      if path[|path| - 1] != '/' {
        assert name == LastSegment(init) + [path[|path| - 1]];
        assert path == init + [path[|path| - 1]];
      }
    }
  }
}
