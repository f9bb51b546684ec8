/**
 * The JavaScript string operations the command-line tool relies on:
 * `split` with a one-character separator, `trim`, `endsWith`, `includes`
 * and `toLowerCase`, stated over Dafny strings (`seq<char>`).
 */
module Strings {

  /** The pieces of `s` between occurrences of `sep`, as `s.split(sep)` returns them. */
  function Split(s: string, sep: char): (parts: seq<string>)
    ensures |parts| >= 1
    ensures forall i :: 0 <= i < |parts| ==> sep !in parts[i]
    ensures Join(parts, sep) == s
    decreases |s|
  {
    if s == [] then [""]
    else if s[0] == sep then [""] + Split(s[1..], sep)
    else
      var rest := Split(s[1..], sep);
      JoinExtendFirst(s[0], rest, sep);
      [[s[0]] + rest[0]] + rest[1..]
  }

  /** The pieces glued back together with `sep` between neighbours (`parts.join(sep)`). */
  function Join(parts: seq<string>, sep: char): string
    requires |parts| >= 1
  {
    if |parts| == 1 then parts[0] else parts[0] + [sep] + Join(parts[1..], sep)
  }

  lemma JoinExtendFirst(c: char, rest: seq<string>, sep: char)
    requires |rest| >= 1
    ensures Join([[c] + rest[0]] + rest[1..], sep) == [c] + Join(rest, sep)
  {
    var parts := [[c] + rest[0]] + rest[1..];
    assert parts[1..] == rest[1..];
  }

  /** A piece free of the separator splits to itself. */
  lemma {:induction false} SplitPlain(x: string, sep: char)
    requires sep !in x
    ensures Split(x, sep) == [x]
    decreases |x|
  {
    if x != [] {
      SplitPlain(x[1..], sep);
      assert [x[0]] + x[1..] == x;
    }
  }

  /** Splitting at the first separator: `(x + sep + y).split(sep) == [x] + y.split(sep)`. */
  lemma {:induction false} SplitAtFirst(x: string, y: string, sep: char)
    requires sep !in x
    ensures Split(x + [sep] + y, sep) == [x] + Split(y, sep)
    decreases |x|
  {
    var s := x + [sep] + y;
    if x == [] {
      assert s[1..] == y;
    } else {
      assert s[1..] == x[1..] + [sep] + y;
      SplitAtFirst(x[1..], y, sep);
      assert [x[0]] + x[1..] == x;
    }
  }

  /** Split undoes Join when no piece contains the separator. */
  lemma {:induction false} SplitJoin(parts: seq<string>, sep: char)
    requires |parts| >= 1
    requires forall i :: 0 <= i < |parts| ==> sep !in parts[i]
    ensures Split(Join(parts, sep), sep) == parts
    decreases |parts|
  {
    if |parts| == 1 {
      SplitPlain(parts[0], sep);
    } else {
      SplitAtFirst(parts[0], Join(parts[1..], sep), sep);
      SplitJoin(parts[1..], sep);
      assert [parts[0]] + parts[1..] == parts;
    }
  }

  /** Splitting a concatenation around a separator concatenates the splits. */
  lemma {:induction false} SplitConcat(x: string, y: string, sep: char)
    ensures Split(x + [sep] + y, sep) == Split(x, sep) + Split(y, sep)
    decreases |x|
  {
    var s := x + [sep] + y;
    if x == [] {
      assert s[1..] == y;
    } else if x[0] == sep {
      assert s[1..] == x[1..] + [sep] + y;
      SplitConcat(x[1..], y, sep);
    } else {
      assert s[1..] == x[1..] + [sep] + y;
      SplitConcat(x[1..], y, sep);
      var r := Split(x[1..], sep);
      assert (r + Split(y, sep))[0] == r[0];
      assert (r + Split(y, sep))[1..] == r[1..] + Split(y, sep);
    }
  }

  /** The number of occurrences of `ch` in `s`. */
  function Count(s: string, ch: char): nat
    decreases |s|
  {
    if s == [] then 0 else (if s[0] == ch then 1 else 0) + Count(s[1..], ch)
  }

  /** `s.split(sep)` has one piece more than `s` has separators. */
  lemma {:induction false} SplitCount(s: string, sep: char)
    ensures |Split(s, sep)| == Count(s, sep) + 1
    decreases |s|
  {
    if s != [] {
      SplitCount(s[1..], sep);
    }
  }

  /** The number of non-overlapping occurrences of `kw` in `s`, scanning from the left as `split` does. */
  function CountText(s: string, kw: string): nat
    requires kw != []
    decreases |s|
  {
    if s == [] then 0
    else if StartsWith(s, kw) then 1 + CountText(s[|kw|..], kw)
    else CountText(s[1..], kw)
  }

  /** A text never occurs where its first character does not. */
  lemma {:induction false} CountTextAbsent(s: string, kw: string)
    requires kw != [] && kw[0] !in s
    ensures CountText(s, kw) == 0
    decreases |s|
  {
    if s != [] {
      assert !StartsWith(s, kw) by { assert s[0] != kw[0]; }
      assert forall k :: 0 <= k < |s[1..]| ==> s[1..][k] == s[k + 1];
      CountTextAbsent(s[1..], kw);
    }
  }

  /** A prefix free of the first character of `kw` adds no occurrence. */
  lemma {:induction false} CountTextSkip(p: string, s: string, kw: string)
    requires kw != [] && kw[0] !in p
    ensures CountText(p + s, kw) == CountText(s, kw)
    decreases |p|
  {
    if p != [] {
      assert !StartsWith(p + s, kw) by {
        assert (p + s)[0] == p[0] != kw[0];
        if |kw| <= |p + s| {
          assert (p + s)[..|kw|][0] == (p + s)[0];
        }
      }
      assert (p + s)[1..] == p[1..] + s;
      CountTextSkip(p[1..], s, kw);
    } else {
      assert p + s == s;
    }
  }

  /** `s.endsWith(suffix)`. */
  predicate EndsWith(s: string, suffix: string) {
    |suffix| <= |s| && s[|s| - |suffix|..] == suffix
  }

  predicate StartsWith(s: string, prefix: string) {
    |prefix| <= |s| && s[..|prefix|] == prefix
  }

  /** `s.includes(kw)`: `kw` occurs somewhere in `s`. */
  predicate Contains(s: string, kw: string)
    decreases |s|
  {
    StartsWith(s, kw) || (s != [] && Contains(s[1..], kw))
  }

  /** `kw` occurs in `s` starting at index `i`. */
  predicate OccursAt(s: string, kw: string, i: int) {
    0 <= i <= |s| - |kw| && s[i..i + |kw|] == kw
  }

  /** Contains agrees with the existence of a matching window. */
  lemma {:induction false} ContainsAt(s: string, kw: string)
    ensures Contains(s, kw) <==> exists i :: OccursAt(s, kw, i)
    decreases |s|
  {
    if StartsWith(s, kw) {
      assert OccursAt(s, kw, 0);
    } else if s != [] {
      ContainsAt(s[1..], kw);
      if Contains(s[1..], kw) {
        var i :| OccursAt(s[1..], kw, i);
        assert s[1..][i..i + |kw|] == s[i + 1..i + 1 + |kw|];
        assert OccursAt(s, kw, i + 1);
      }
      if exists i :: OccursAt(s, kw, i) {
        var i :| OccursAt(s, kw, i);
        assert i > 0;
        assert s[1..][i - 1..i - 1 + |kw|] == s[i..i + |kw|];
        assert OccursAt(s[1..], kw, i - 1);
      }
    }
  }

  /** The characters `String.prototype.trim` removes: white space and line terminators. */
  predicate IsJsSpace(c: char) {
    c as int in {0x09, 0x0A, 0x0B, 0x0C, 0x0D, 0x20, 0xA0, 0x1680,
                 0x2000, 0x2001, 0x2002, 0x2003, 0x2004, 0x2005, 0x2006, 0x2007,
                 0x2008, 0x2009, 0x200A, 0x2028, 0x2029, 0x202F, 0x205F, 0x3000, 0xFEFF}
  }

  function TrimStart(s: string): (r: string)
    ensures |r| <= |s| && r == s[|s| - |r|..]
    ensures r == [] || !IsJsSpace(r[0])
    decreases |s|
  {
    if s != [] && IsJsSpace(s[0]) then TrimStart(s[1..]) else s
  }

  function TrimEnd(s: string): (r: string)
    ensures |r| <= |s| && r == s[..|r|]
    ensures r == [] || !IsJsSpace(r[|r| - 1])
    decreases |s|
  {
    if s != [] && IsJsSpace(s[|s| - 1]) then TrimEnd(s[..|s| - 1]) else s
  }

  /** `s.trim()`. */
  function Trim(s: string): string {
    TrimEnd(TrimStart(s))
  }

  /** A string that `trim` leaves alone. */
  predicate IsTrimmed(s: string) {
    s == [] || (!IsJsSpace(s[0]) && !IsJsSpace(s[|s| - 1]))
  }

  /** Trimming what was written with a trailing newline gives the trimmed text back. */
  lemma TrimLine(v: string)
    requires IsTrimmed(v)
    ensures Trim(v + "\n") == v
  {
    var s := v + "\n";
    if v == [] {
      assert TrimStart(s) == s[1..];
    } else {
      assert TrimStart(s) == s;
      assert s[..|s| - 1] == v;
      assert TrimEnd(s) == TrimEnd(v);
    }
  }

  function LowerChar(c: char): char {
    if 'A' <= c <= 'Z' then (c as int + 32) as char else c
  }

  /** `s.toLowerCase()` on ASCII letters; other characters are kept. */
  function Lower(s: string): (r: string)
    ensures |r| == |s|
    ensures forall i :: 0 <= i < |s| ==> r[i] == LowerChar(s[i])
  {
    seq(|s|, i requires 0 <= i < |s| => LowerChar(s[i]))
  }
}
