/**
 * The version gate of the tool: `semverCompare` (bin/cli.js) and the
 * `needsUpdate` decision that the `install` and `update` paths consult.
 */
module Semver {
  import opened Common
  import opened Strings

  predicate IsDigit(c: char) { '0' <= c <= '9' }

  predicate AllDigits(s: string) { forall i :: 0 <= i < |s| ==> IsDigit(s[i]) }

  /** The value of a string of decimal digits (the empty string is 0). */
  function DecimalValue(s: string): nat
    requires AllDigits(s)
  {
    if s == [] then 0 else DecimalValue(s[..|s| - 1]) * 10 + (s[|s| - 1] as int - '0' as int)
  }

  /**
   * `Number(x) || 0` for one dot-separated component: a digit string gives its
   * value, the empty string gives 0, and anything that is not a number (NaN) gives 0.
   */
  function ComponentValue(s: string): nat {
    if AllDigits(s) then DecimalValue(s) else 0
  }

  /** `(pa[i] || 0)`: component `i`, or 0 when the version has fewer components. */
  function Part(v: string, i: nat): nat {
    var parts := Split(v, '.');
    if i < |parts| then ComponentValue(parts[i]) else 0
  }

  /** The three components the comparison looks at. */
  function Key(v: string): seq<nat> {
    [Part(v, 0), Part(v, 1), Part(v, 2)]
  }

  /** Lexicographic comparison of equally long number sequences. */
  function LexCompare(x: seq<int>, y: seq<int>): (r: int)
    requires |x| == |y|
    ensures r in {-1, 0, 1}
    ensures r == 0 <==> x == y
    decreases |x|
  {
    if x == [] then 0
    else if x[0] > y[0] then 1
    else if x[0] < y[0] then -1
    else
      var r := LexCompare(x[1..], y[1..]);
      assert x == [x[0]] + x[1..] && y == [y[0]] + y[1..];
      r
  }

  /** The meaning of `semverCompare(a, b)`: the first three components, lexicographically. */
  function Compare(a: string, b: string): int {
    LexCompare(Key(a), Key(b))
  }

  /** Where two sequences first differ decides their lexicographic order. */
  lemma {:induction false} LexFirstDifference(x: seq<int>, y: seq<int>, i: nat)
    requires |x| == |y| && i < |x|
    requires x[..i] == y[..i] && x[i] != y[i]
    ensures LexCompare(x, y) == (if x[i] > y[i] then 1 else -1)
    decreases i
  {
    if i > 0 {
      assert x[0] == x[..i][0] && y[0] == y[..i][0];
      assert x[1..][..i - 1] == x[..i][1..];
      assert y[1..][..i - 1] == y[..i][1..];
      LexFirstDifference(x[1..], y[1..], i - 1);
    }
  }

  /** `semverCompare`: a loop over the first three components with early return. */
  method SemverCompare(a: string, b: string) returns (r: int)
    ensures r == Compare(a, b)
    ensures r in {-1, 0, 1}
  {
    var pa := Split(a, '.');
    var pb := Split(b, '.');
    for i := 0 to 3
      invariant Key(a)[..i] == Key(b)[..i]
    {
      var x := if i < |pa| then ComponentValue(pa[i]) else 0;
      var y := if i < |pb| then ComponentValue(pb[i]) else 0;
      assert x == Key(a)[i] && y == Key(b)[i];
      if x > y {
        LexFirstDifference(Key(a), Key(b), i);
        return 1;
      }
      if x < y {
        LexFirstDifference(Key(a), Key(b), i);
        return -1;
      }
      assert Key(a)[..i + 1] == Key(a)[..i] + [x];
      assert Key(b)[..i + 1] == Key(b)[..i] + [y];
    }
    assert Key(a) == Key(a)[..3] && Key(b) == Key(b)[..3];
    return 0;
  }

  lemma {:induction false} LexAntisymmetric(x: seq<int>, y: seq<int>)
    requires |x| == |y|
    ensures LexCompare(x, y) == -LexCompare(y, x)
    decreases |x|
  {
    if x != [] && x[0] == y[0] {
      LexAntisymmetric(x[1..], y[1..]);
    }
  }

  lemma {:induction false} LexTransitive(x: seq<int>, y: seq<int>, z: seq<int>)
    requires |x| == |y| == |z|
    requires LexCompare(x, y) > 0 && LexCompare(y, z) > 0
    ensures LexCompare(x, z) > 0
    decreases |x|
  {
    if x[0] == y[0] && y[0] == z[0] {
      LexTransitive(x[1..], y[1..], z[1..]);
    }
  }

  /** Equal inputs compare equal. */
  lemma CompareSelf(a: string)
    ensures Compare(a, a) == 0
  {
  }

  /** The comparison is antisymmetric: `semverCompare(a, b) == -semverCompare(b, a)`. */
  lemma CompareAntisymmetric(a: string, b: string)
    ensures Compare(a, b) == -Compare(b, a)
  {
    LexAntisymmetric(Key(a), Key(b));
  }

  /** The comparison is transitive, so "newer than" is a strict order. */
  lemma CompareTransitive(a: string, b: string, c: string)
    requires Compare(a, b) > 0 && Compare(b, c) > 0
    ensures Compare(a, c) > 0
  {
    LexTransitive(Key(a), Key(b), Key(c));
  }

  /** Only the first three components matter: anything after a third dot is ignored. */
  lemma CompareIgnoresTail(a: string, tail: string, b: string)
    requires |Split(a, '.')| >= 3
    ensures Compare(a + "." + tail, b) == Compare(a, b)
  {
    SplitConcat(a, tail, '.');
    assert a + "." + tail == a + ['.'] + tail;
    var pa := Split(a, '.');
    var pt := Split(a + "." + tail, '.');
    assert pt[..|pa|] == pa;
    assert Key(a + "." + tail) == Key(a) by {
      assert pt[0] == pa[0] && pt[1] == pa[1] && pt[2] == pa[2];
    }
  }

  function DigitChar(d: nat): char
    requires d < 10
  {
    ('0' as int + d) as char
  }

  /** The decimal spelling of a number, as `String(n)` writes it. */
  function DecimalString(n: nat): (s: string)
    ensures |s| >= 1 && AllDigits(s)
    ensures DecimalValue(s) == n
    decreases n
  {
    if n < 10 then [DigitChar(n)]
    else
      var s := DecimalString(n / 10) + [DigitChar(n % 10)];
      assert s[..|s| - 1] == DecimalString(n / 10);
      s
  }

  /** The version string `major.minor.patch`. */
  function Format(major: nat, minor: nat, patch: nat): string {
    DecimalString(major) + "." + DecimalString(minor) + "." + DecimalString(patch)
  }

  /** Reading a formatted version gives its three numbers back. */
  lemma KeyOfFormat(major: nat, minor: nat, patch: nat)
    ensures Key(Format(major, minor, patch)) == [major, minor, patch]
  {
    var d := [DecimalString(major), DecimalString(minor), DecimalString(patch)];
    forall i | 0 <= i < 3 ensures '.' !in d[i] {
      assert forall k :: 0 <= k < |d[i]| ==> d[i][k] != '.';
    }
    assert Join(d[2..], '.') == d[2];
    assert Join(d[1..], '.') == d[1] + "." + d[2];
    assert Join(d, '.') == Format(major, minor, patch);
    SplitJoin(d, '.');
  }

  /**
   * On well-formed versions the comparison is the component-wise numeric order:
   * `1.10.0` is newer than `1.9.0`.
   */
  lemma CompareFormatted(x: seq<nat>, y: seq<nat>)
    requires |x| == 3 && |y| == 3
    ensures Compare(Format(x[0], x[1], x[2]), Format(y[0], y[1], y[2])) == LexCompare(x, y)
  {
    KeyOfFormat(x[0], x[1], x[2]);
    KeyOfFormat(y[0], y[1], y[2]);
    assert [x[0], x[1], x[2]] == x && [y[0], y[1], y[2]] == y;
  }

  /**
   * `needsUpdate(force)`: the installed version is passed in (`None` when the
   * version marker cannot be read). An empty installed version is falsy and
   * forces the sync, like a missing one.
   */
  function NeedsUpdate(force: bool, installed: Option<string>, package: string): bool {
    if force then true
    else if installed == None || installed.value == "" then true
    else Compare(package, installed.value) > 0
  }

  /** Without `--force`, the sync is skipped exactly when a non-empty installed version is at least the package's. */
  lemma NeedsUpdateSkips(installed: Option<string>, package: string)
    ensures !NeedsUpdate(false, installed, package) <==>
              installed.Some? && installed.value != "" && Compare(installed.value, package) >= 0
  {
    if installed.Some? {
      CompareAntisymmetric(installed.value, package);
    }
  }

  /** `--force` always syncs. */
  lemma NeedsUpdateForced(installed: Option<string>, package: string)
    ensures NeedsUpdate(true, installed, package)
  {
  }

  /** The same non-empty version installed as packaged: nothing to do without `--force`. */
  lemma NeedsUpdateSameVersion(v: string)
    requires v != ""
    ensures !NeedsUpdate(false, Some(v), v)
  {
    CompareSelf(v);
  }

  /**
   * The worked scenarios: 1.2.0 installed and 1.3.0 packaged syncs; 1.3.0 and
   * 1.3.0 does not; 2.0.0 installed and 1.3.0 packaged does not either (no downgrade).
   */
  lemma NeedsUpdateScenarios()
    ensures NeedsUpdate(false, Some("1.2.0"), "1.3.0")
    ensures !NeedsUpdate(false, Some("1.3.0"), "1.3.0")
    ensures NeedsUpdate(true, Some("1.3.0"), "1.3.0")
    ensures !NeedsUpdate(false, Some("2.0.0"), "1.3.0")
  {
    assert Format(1, 2, 0) == "1.2.0";
    assert Format(1, 3, 0) == "1.3.0";
    assert Format(2, 0, 0) == "2.0.0";
    CompareFormatted([1, 3, 0], [1, 2, 0]);
    CompareFormatted([1, 3, 0], [2, 0, 0]);
    assert LexCompare([1, 3, 0], [2, 0, 0]) == -1;
    assert LexCompare([1, 3, 0], [1, 2, 0]) == 1 by {
      assert [1, 3, 0][1..] == [3, 0] && [1, 2, 0][1..] == [2, 0];
    }
  }

  /**
   * The `update` command: `installGlobals(force)` reports whether it ran
   * (`needsUpdate(force)`), and the local sync runs when that or `--force` holds.
   */
  function UpdateRunsLocal(force: bool, installed: Option<string>, package: string): bool {
    var updated := NeedsUpdate(force, installed, package);
    updated || force
  }

  /** The local sync of `update` runs exactly when the version gate passes. */
  lemma UpdateGate(force: bool, installed: Option<string>, package: string)
    ensures UpdateRunsLocal(force, installed, package) == NeedsUpdate(force, installed, package)
  {
  }
}
