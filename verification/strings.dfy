/** Option type shared by every module of the model. */
module Wrappers {
  datatype Option<+T> = None | Some(value: T)
}

/**
 * The handful of Python `str` operations the pipeline relies on:
 * `split`, `join`, `replace`, `startswith`, `in`, `index` and slicing.
 */
module Strings {
  import opened Wrappers

  /** `p` occurs in `s` starting at position `k`. */
  predicate MatchesAt(s: string, p: string, k: nat) {
    k + |p| <= |s| && s[k..k + |p|] == p
  }

  /** `s.startswith(p)` */
  predicate StartsWith(s: string, p: string) {
    MatchesAt(s, p, 0)
  }

  /** First occurrence of `p` in `s` at or after `from`. */
  function IndexFrom(s: string, p: string, from: nat): (r: Option<nat>)
    requires from <= |s|
    ensures r.Some? ==> from <= r.value <= |s| && MatchesAt(s, p, r.value)
    ensures r.Some? ==> forall j :: from <= j < r.value ==> !MatchesAt(s, p, j)
    ensures r.None? ==> forall j :: from <= j ==> !MatchesAt(s, p, j)
    decreases |s| - from
  {
    if MatchesAt(s, p, from) then Some(from)
    else if from == |s| then None
    else IndexFrom(s, p, from + 1)
  }

  /** `s.index(p)` when `p in s`, and None when it is not. */
  function Find(s: string, p: string): (r: Option<nat>)
    ensures r.Some? ==> MatchesAt(s, p, r.value) && forall j :: 0 <= j < r.value ==> !MatchesAt(s, p, j)
    ensures r.None? <==> forall j :: !MatchesAt(s, p, j)
  {
    IndexFrom(s, p, 0)
  }

  /** `p in s` */
  predicate Contains(s: string, p: string) {
    Find(s, p).Some?
  }

  /** Python's `s[a:b]` for indices inside the string: empty when `a >= b`. */
  function Slice(s: string, a: nat, b: nat): (r: string)
    requires a <= |s| && b <= |s|
    ensures a < b ==> r == s[a..b]
    ensures b <= a ==> r == ""
  {
    if a < b then s[a..b] else ""
  }

  /** `s.replace(a, b)` for one-character `a` and `b`. */
  function ReplaceChar(s: string, a: char, b: char): (r: string)
    ensures |r| == |s|
    ensures forall i :: 0 <= i < |s| ==> r[i] == if s[i] == a then b else s[i]
  {
    if s == [] then [] else [if s[0] == a then b else s[0]] + ReplaceChar(s[1..], a, b)
  }

  /** `s.replace(".", "_").replace("-", "_")`: the fqdn spelling used in cache keys and group ids. */
  function Underscored(s: string): (r: string)
    ensures |r| == |s|
    ensures forall i :: 0 <= i < |s| ==> r[i] == if s[i] == '.' || s[i] == '-' then '_' else s[i]
  {
    ReplaceChar(ReplaceChar(s, '.', '_'), '-', '_')
  }

  /** Underscoring twice is underscoring once. */
  lemma UnderscoredIdempotent(s: string)
    ensures Underscored(Underscored(s)) == Underscored(s)
    ensures '.' !in Underscored(s) && '-' !in Underscored(s)
  {
    var u := Underscored(s);
    forall i | 0 <= i < |u| ensures u[i] != '.' && u[i] != '-' { }
  }

  /** `sep.join(xs)` */
  function Join(xs: seq<string>, sep: string): (r: string)
    ensures xs == [] ==> r == ""
    ensures |xs| == 1 ==> r == xs[0]
  {
    if |xs| == 0 then "" else if |xs| == 1 then xs[0] else xs[0] + sep + Join(xs[1..], sep)
  }

  /** `s.split(c)` for a one-character separator. */
  function Split(s: string, c: char): (r: seq<string>)
    ensures |r| >= 1
    ensures forall i :: 0 <= i < |r| ==> c !in r[i]
  {
    if s == [] then [""]
    else
      var rest := Split(s[1..], c);
      if s[0] == c then [""] + rest else [[s[0]] + rest[0]] + rest[1..]
  }

  /** Joining one more element at the end. */
  lemma {:induction false} JoinSnoc(xs: seq<string>, y: string, sep: string)
    requires |xs| >= 1
    ensures Join(xs + [y], sep) == Join(xs, sep) + sep + y
    decreases |xs|
  {
    if |xs| == 1 {
      assert xs + [y] == [xs[0], y];
    } else {
      assert (xs + [y])[1..] == xs[1..] + [y];
      JoinSnoc(xs[1..], y, sep);
    }
  }

  /** Splitting a string and joining the pieces back gives the string. */
  lemma {:induction false} JoinSplit(s: string, c: char)
    ensures Join(Split(s, c), [c]) == s
    decreases |s|
  {
    if s != [] {
      var rest := Split(s[1..], c);
      JoinSplit(s[1..], c);
      if s[0] == c {
        assert ([""] + rest)[1..] == rest;
      } else if |rest| > 1 {
        var parts := [[s[0]] + rest[0]] + rest[1..];
        assert parts[1..] == rest[1..];
        assert Join(rest, [c]) == rest[0] + [c] + Join(rest[1..], [c]);
        assert s == [s[0]] + s[1..];
      } else {
        assert s == [s[0]] + s[1..];
      }
    }
  }

  /** A prefix free of the separator glues onto the first piece. */
  lemma {:induction false} SplitPrefix(x: string, t: string, c: char)
    requires c !in x
    ensures Split(x + t, c) == [x + Split(t, c)[0]] + Split(t, c)[1..]
    decreases |x|
  {
    if x == [] {
      var parts := Split(t, c);
      assert x + t == t;
      assert x + parts[0] == parts[0];
      assert [parts[0]] + parts[1..] == parts;
    } else {
      assert (x + t)[1..] == x[1..] + t;
      SplitPrefix(x[1..], t, c);
      assert [x[0]] + (x[1..] + Split(t, c)[0]) == x + Split(t, c)[0];
    }
  }

  /**
   * Joining separator-free pieces and splitting the result gives the pieces
   * back: the comma-joined `groups` field of a cache record decodes to the
   * list that was written, provided no group id contains a comma.
   */
  lemma {:induction false} SplitJoin(xs: seq<string>, c: char)
    requires |xs| >= 1
    requires forall i :: 0 <= i < |xs| ==> c !in xs[i]
    ensures Split(Join(xs, [c]), c) == xs
    decreases |xs|
  {
    if |xs| == 1 {
      SplitPrefix(xs[0], "", c);
      assert xs[0] + "" == xs[0];
    } else {
      var j := Join(xs[1..], [c]);
      SplitJoin(xs[1..], c);
      assert xs[0] + [c] + j == xs[0] + ([c] + j);
      SplitPrefix(xs[0], [c] + j, c);
      assert ([c] + j)[1..] == j;
      assert Split([c] + j, c) == [""] + xs[1..];
      assert xs[0] + "" == xs[0];
    }
  }

  /** Splitting at one separator occurrence splits the two sides independently. */
  lemma {:induction false} SplitConcat(x: string, t: string, c: char)
    ensures Split(x + [c] + t, c) == Split(x, c) + Split(t, c)
    decreases |x|
  {
    if x == [] {
      assert x + [c] + t == [c] + t;
      assert ([c] + t)[1..] == t;
    } else {
      assert (x + [c] + t)[1..] == x[1..] + [c] + t;
      SplitConcat(x[1..], t, c);
    }
  }

  /** The character of a decimal digit. */
  function Digit(d: nat): (c: char)
    requires d < 10
    ensures '0' <= c <= '9' && c as int - '0' as int == d
  {
    ('0' as int + d) as char
  }

  predicate IsDigits(s: string) {
    forall i :: 0 <= i < |s| ==> '0' <= s[i] <= '9'
  }

  /** `int(s)` for a string of decimal digits, most significant first. */
  function DigitsValue(s: string): nat
    requires IsDigits(s)
    decreases |s|
  {
    if s == [] then 0 else 10 * DigitsValue(s[..|s| - 1]) + (s[|s| - 1] as int - '0' as int)
  }

  /** Decimal digits of `n`, as Python's `str(n)` and `%d` write them: they read back as `n`. */
  function NatToString(n: nat): (s: string)
    ensures |s| >= 1 && IsDigits(s)
    ensures DigitsValue(s) == n
  {
    if n < 10 then [Digit(n)]
    else
      var front := NatToString(n / 10);
      var s := front + [Digit(n % 10)];
      assert s[..|s| - 1] == front;
      s
  }

  /**
   * A number written in front of text that does not open with a digit can
   * be read back: equal strings name equal numbers.
   */
  lemma NatToStringBeforeText(n: nat, m: nat, t: string, u: string)
    requires |t| > 0 && !('0' <= t[0] <= '9')
    requires |u| > 0 && !('0' <= u[0] <= '9')
    requires NatToString(n) + t == NatToString(m) + u
    ensures n == m
  {
    var a := NatToString(n);
    var b := NatToString(m);
    // The first position past the shorter number holds text on one side;
    // a digit there on the other side would differ from it.
    var k := if |a| < |b| then |a| else |b|;
    assert (a + t)[k] == (b + u)[k];
    assert |a| == |b|;
    assert a == (a + t)[..|a|];
    assert b == (b + u)[..|b|];
  }

  /** `s.split("/")[-1]` */
  function LastSegment(s: string): (r: string)
    ensures '/' !in r
  {
    var parts := Split(s, '/');
    parts[|parts| - 1]
  }

  /**
   * The last `/`-segment is the longest suffix of `s` free of `/`: it is
   * either all of `s` or is preceded by a `/`.
   */
  lemma LastSegmentIsTail(s: string)
    ensures |LastSegment(s)| <= |s|
    ensures s[|s| - |LastSegment(s)|..] == LastSegment(s)
    ensures |LastSegment(s)| < |s| ==> s[|s| - |LastSegment(s)| - 1] == '/'
  {
    var parts := Split(s, '/');
    var n := |parts|;
    var last := parts[n - 1];
    assert last == LastSegment(s);
    JoinSplit(s, '/');
    if n == 1 {
      assert s == last;
    } else {
      var front := Join(parts[..n - 1], "/");
      assert parts == parts[..n - 1] + [last];
      JoinSnoc(parts[..n - 1], last, "/");
      assert s == front + "/" + last;
      assert s[|s| - |last|..] == last;
      assert s[|s| - |last| - 1] == '/';
    }
  }

  /** A string without `/` is its own last segment. */
  lemma LastSegmentOfPlain(s: string)
    requires '/' !in s
    ensures LastSegment(s) == s
  {
    LastSegmentIsTail(s);
  }

  /** Everything up to and including the last `/`: empty, or ending in `/`. */
  function Dir(s: string): (d: string)
    ensures d + LastSegment(s) == s
    ensures |d| > 0 ==> d[|d| - 1] == '/'
  {
    LastSegmentIsTail(s);
    s[..|s| - |LastSegment(s)|]
  }

  /** Appending a `/`-free string to a directory part makes it the last segment. */
  lemma LastSegmentAfterDir(d: string, ref: string)
    requires '/' !in ref
    requires |d| > 0 ==> d[|d| - 1] == '/'
    ensures LastSegment(d + ref) == ref
  {
    LastSegmentOfPlain(ref);
    if |d| > 0 {
      var front := d[..|d| - 1];
      assert d + ref == front + ['/'] + ref;
      SplitConcat(front, ref, '/');
      var parts := Split(front, '/') + Split(ref, '/');
      assert parts[|parts| - 1] == Split(ref, '/')[|Split(ref, '/')| - 1];
    } else {
      assert d + ref == ref;
    }
  }

  /** A string ending in `/` is all directory. */
  lemma DirOfSlashTerminated(s: string)
    requires |s| > 0 && s[|s| - 1] == '/'
    ensures Dir(s) == s
  {
    var front := s[..|s| - 1];
    assert s == front + ['/'] + "";
    SplitConcat(front, "", '/');
  }
}
