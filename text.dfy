/** Python's string operations used by the converter, over `string` (= seq<char>):
    `sub in s`, `s.startswith(p)`, `s.endswith(p)`, `s.split(sep)`, `sep.join(parts)`,
    `s.count(sub)`, `s.strip(c)` and `str(n)` for a natural number. */
module Text {

  /** `sub in s`: the empty string occurs in every string. */
  predicate Contains(s: string, sub: string)
    decreases |s|
  {
    if |s| < |sub| then false
    else s[..|sub|] == sub || Contains(s[1..], sub)
  }

  /** `s.startswith(p)` */
  predicate StartsWith(s: string, p: string)
  {
    |p| <= |s| && s[..|p|] == p
  }

  /** `s.endswith(p)` */
  predicate EndsWith(s: string, p: string)
  {
    |p| <= |s| && s[|s| - |p|..] == p
  }

  /** `s.split(sep)` for a non-empty separator: the string is cut at the leftmost
      non-overlapping occurrences of `sep`, scanning from the left. */
  function Split(s: string, sep: string): (parts: seq<string>)
    requires |sep| > 0
    ensures |parts| >= 1
    decreases |s|
  {
    if |s| < |sep| then [s]
    else if s[..|sep|] == sep then [""] + Split(s[|sep|..], sep)
    else
      var rest := Split(s[1..], sep);
      [[s[0]] + rest[0]] + rest[1..]
  }

  /** `s.count(sub)` for a non-empty `sub`: non-overlapping occurrences, leftmost first. */
  function Count(s: string, sub: string): nat
    requires |sub| > 0
    decreases |s|
  {
    if |s| < |sub| then 0
    else if s[..|sub|] == sub then 1 + Count(s[|sub|..], sub)
    else Count(s[1..], sub)
  }

  /** `sep.join(parts)` */
  function Join(parts: seq<string>, sep: string): string
  {
    if |parts| == 0 then ""
    else if |parts| == 1 then parts[0]
    else parts[0] + sep + Join(parts[1..], sep)
  }

  /** The last element of a non-empty sequence (Python's `xs[-1]`). */
  function Last<T>(xs: seq<T>): T
    requires |xs| > 0
  {
    xs[|xs| - 1]
  }

  /** All but the last element (Python's `xs[0:-1]` on a non-empty list). */
  function AllButLast<T>(xs: seq<T>): seq<T>
    requires |xs| > 0
  {
    xs[..|xs| - 1]
  }

  /** `[x for _ in range(n)]` */
  function Repeat(x: string, n: nat): (r: seq<string>)
    ensures |r| == n && forall i :: 0 <= i < n ==> r[i] == x
  {
    if n == 0 then [] else [x] + Repeat(x, n - 1)
  }

  /** A segment that a separator can follow without being misread: `sep` occurs in
      `seg + sep` only as that suffix. For a one-character separator this is just
      "`sep` does not occur in `seg`" (FreeOneChar). */
  predicate Free(seg: string, sep: string)
    requires |sep| > 0
    decreases |seg|
  {
    |seg| == 0 || ((seg + sep)[..|sep|] != sep && Free(seg[1..], sep))
  }

  predicate AllFree(segs: seq<string>, sep: string)
    requires |sep| > 0
  {
    forall i :: 0 <= i < |segs| ==> Free(segs[i], sep)
  }

  /** A list of segments that `Split` gives back from its `Join`: every segment but the
      last can be followed by the separator, and the last holds no separator. */
  predicate Splittable(segs: seq<string>, sep: string)
    requires |sep| > 0
  {
    |segs| >= 1 && AllFree(AllButLast(segs), sep) && !Contains(Last(segs), sep)
  }

  lemma {:induction false} JoinCons(c: char, r: string, rest: seq<string>, sep: string)
    ensures Join([[c] + r] + rest, sep) == [c] + Join([r] + rest, sep)
  {
    var p := [[c] + r] + rest;
    var q := [r] + rest;
    if |rest| > 0 {
      assert p[1..] == rest && q[1..] == rest;
    }
  }

  /** Joining what `Split` returns gives the string back. */
  lemma {:induction false} JoinSplit(s: string, sep: string)
    requires |sep| > 0
    ensures Join(Split(s, sep), sep) == s
    decreases |s|
  {
    if |s| < |sep| {
    } else if s[..|sep|] == sep {
      var rest := Split(s[|sep|..], sep);
      JoinSplit(s[|sep|..], sep);
      var parts := [""] + rest;
      assert parts[1..] == rest;
      assert Join(parts, sep) == "" + sep + Join(rest, sep);
      assert s == s[..|sep|] + s[|sep|..];
    } else {
      var rest := Split(s[1..], sep);
      JoinSplit(s[1..], sep);
      JoinCons(s[0], rest[0], rest[1..], sep);
      assert [rest[0]] + rest[1..] == rest;
      assert s == [s[0]] + s[1..];
    }
  }

  /** `Split` returns one more part than `Count` finds occurrences. */
  lemma {:induction false} SplitCount(s: string, sep: string)
    requires |sep| > 0
    ensures |Split(s, sep)| == Count(s, sep) + 1
    decreases |s|
  {
    if |s| < |sep| {
    } else if s[..|sep|] == sep {
      SplitCount(s[|sep|..], sep);
    } else {
      SplitCount(s[1..], sep);
    }
  }

  /** For a non-empty separator, `sep in s` exactly when `s.count(sep) > 0`. */
  lemma {:induction false} ContainsCount(s: string, sep: string)
    requires |sep| > 0
    ensures Contains(s, sep) <==> Count(s, sep) > 0
    decreases |s|
  {
    if |s| >= |sep| && s[..|sep|] != sep {
      ContainsCount(s[1..], sep);
    }
  }

  /** A string without the separator is not cut at all. */
  lemma {:induction false} SplitNoSeparator(s: string, sep: string)
    requires |sep| > 0 && !Contains(s, sep)
    ensures Split(s, sep) == [s]
    decreases |s|
  {
    if |s| >= |sep| {
      SplitNoSeparator(s[1..], sep);
      assert [s[0]] + s[1..] == s;
    }
  }

  lemma {:induction false} FreeNotContains(seg: string, sep: string)
    requires |sep| > 0 && Free(seg, sep)
    ensures !Contains(seg, sep)
    decreases |seg|
  {
    if |seg| >= |sep| {
      assert (seg + sep)[..|sep|] == seg[..|sep|];
      FreeNotContains(seg[1..], sep);
    }
  }

  /** With a one-character separator, `Free` is plain absence of the separator. */
  lemma {:induction false} FreeOneChar(seg: string, sep: string)
    requires |sep| == 1
    ensures Free(seg, sep) <==> !Contains(seg, sep)
    decreases |seg|
  {
    if |seg| > 0 {
      assert (seg + sep)[..1] == seg[..1];
      FreeOneChar(seg[1..], sep);
    }
  }

  /** A free segment followed by the separator is cut off as one part, whatever follows. */
  lemma {:induction false} SplitFreeHead(a: string, x: string, sep: string)
    requires |sep| > 0 && Free(a, sep)
    ensures Split(a + sep + x, sep) == [a] + Split(x, sep)
    decreases |a|
  {
    var s := a + sep + x;
    if |a| == 0 {
      assert s == sep + x;
      assert s[..|sep|] == sep && s[|sep|..] == x;
    } else {
      assert s[..|sep|] == (a + sep)[..|sep|];
      assert s[1..] == a[1..] + sep + x;
      SplitFreeHead(a[1..], x, sep);
      assert [a[0]] + a[1..] == a;
    }
  }

  /** Joining free segments and then a separator: `Split` recovers the segments, and
      what follows is split on its own. */
  lemma {:induction false} SplitJoinPrefix(p: seq<string>, x: string, sep: string)
    requires |sep| > 0 && |p| >= 1 && AllFree(p, sep)
    ensures Split(Join(p, sep) + sep + x, sep) == p + Split(x, sep)
    decreases |p|
  {
    if |p| == 1 {
      SplitFreeHead(p[0], x, sep);
    } else {
      var t := Join(p[1..], sep) + sep + x;
      assert Join(p, sep) + sep + x == p[0] + sep + t;
      SplitFreeHead(p[0], t, sep);
      assert AllFree(p[1..], sep) by {
        forall i | 0 <= i < |p| - 1 ensures Free(p[1..][i], sep) { assert p[1..][i] == p[i + 1]; }
      }
      SplitJoinPrefix(p[1..], x, sep);
      assert p == [p[0]] + p[1..];
    }
  }

  /** Round trip: a splittable list of segments is recovered from its join. */
  lemma {:induction false} SplitJoin(segs: seq<string>, sep: string)
    requires |sep| > 0 && Splittable(segs, sep)
    ensures Split(Join(segs, sep), sep) == segs
    ensures Count(Join(segs, sep), sep) == |segs| - 1
  {
    SplitJoinParts(segs, sep);
    SplitCount(Join(segs, sep), sep);
  }

  lemma {:induction false} SplitJoinParts(segs: seq<string>, sep: string)
    requires |sep| > 0 && Splittable(segs, sep)
    ensures Split(Join(segs, sep), sep) == segs
  {
    var l := Last(segs);
    SplitNoSeparator(l, sep);
    if |segs| > 1 {
      var p := AllButLast(segs);
      assert p + [l] == segs;
      JoinAppend(p, [l], sep);
      assert Join([l], sep) == l;
      SplitJoinPrefix(p, l, sep);
    }
  }

  lemma {:induction false} JoinAppend(p: seq<string>, q: seq<string>, sep: string)
    requires |p| >= 1 && |q| >= 1
    ensures Join(p + q, sep) == Join(p, sep) + sep + Join(q, sep)
    decreases |p|
  {
    if |p| == 1 {
      assert (p + q)[1..] == q;
    } else {
      JoinAppend(p[1..], q, sep);
      assert (p + q)[1..] == p[1..] + q;
    }
  }

  /** Every list `Split` returns is splittable: all parts but the last can be followed by
      the separator, and the last part holds none. */
  lemma {:induction false} SplitShape(s: string, sep: string)
    requires |sep| > 0
    ensures Splittable(Split(s, sep), sep)
    decreases |s|
  {
    if |s| < |sep| {
      assert Split(s, sep) == [s];
    } else if s[..|sep|] == sep {
      SplitShape(s[|sep|..], sep);
      SplitShapeAtSeparator(s, sep);
    } else {
      SplitShape(s[1..], sep);
      SplitShapeOneChar(s, sep);
    }
  }

  /** A string starting with the separator splits into an empty part before the parts
      of the rest. */
  lemma {:induction false} SplitShapeAtSeparator(s: string, sep: string)
    requires |sep| > 0 && |s| >= |sep| && s[..|sep|] == sep
    requires Splittable(Split(s[|sep|..], sep), sep)
    ensures Splittable(Split(s, sep), sep)
  {
    var parts, rest := Split(s, sep), Split(s[|sep|..], sep);
    assert parts == [""] + rest;
    var inner, innerRest := AllButLast(parts), AllButLast(rest);
    assert inner == [""] + innerRest;
    forall i | 0 <= i < |inner| ensures Free(inner[i], sep) {
      if i == 0 {
        assert inner[0] == "";
      } else {
        assert inner[i] == innerRest[i - 1];
        assert Free(innerRest[i - 1], sep);
      }
    }
    assert Last(parts) == Last(rest);
  }

  /** A string not starting with the separator has its first character put in front of
      the first part of the rest. */
  lemma {:induction false} SplitShapeOneChar(s: string, sep: string)
    requires |sep| > 0 && |s| >= |sep| && s[..|sep|] != sep
    requires Splittable(Split(s[1..], sep), sep)
    ensures Splittable(Split(s, sep), sep)
  {
    var parts, rest := Split(s, sep), Split(s[1..], sep);
    var head := [s[0]] + rest[0];
    assert parts == [head] + rest[1..];
    if |rest| == 1 {
      JoinSplit(s[1..], sep);
      assert rest[0] == s[1..];
      assert head == s;
    } else {
      FirstPartFree(s, sep);
      var n := |rest| - 1;
      var inner, innerRest := AllButLast(parts), AllButLast(rest);
      assert inner == [head] + rest[1..n];
      assert innerRest[1..] == rest[1..n];
      forall i | 0 <= i < |inner| ensures Free(inner[i], sep) {
        if i > 0 {
          assert inner[i] == innerRest[i];
          assert Free(innerRest[i], sep);
        }
      }
      assert Last(parts) == Last(rest);
    }
  }

  /** When the rest splits into more than one part, the first part with the leading
      character in front can still be followed by the separator. */
  lemma {:induction false} FirstPartFree(s: string, sep: string)
    requires |sep| > 0 && |s| >= |sep| && s[..|sep|] != sep
    requires Splittable(Split(s[1..], sep), sep) && |Split(s[1..], sep)| > 1
    ensures Free([s[0]] + Split(s[1..], sep)[0], sep)
  {
    var rest := Split(s[1..], sep);
    var head := [s[0]] + rest[0];
    var tail := Join(rest[1..], sep);
    JoinSplit(s[1..], sep);
    assert s[1..] == rest[0] + sep + tail;
    assert s == head + sep + tail;
    assert (head + sep)[..|sep|] == s[..|sep|];
    assert Free(rest[0], sep) by { assert rest[0] == AllButLast(rest)[0]; }
    assert head[1..] == rest[0];
  }

  /** A separator placed after any prefix occurs in the result. */
  lemma {:induction false} ContainsAfter(t: string, sep: string, rest: string)
    ensures Contains(t + sep + rest, sep)
    decreases |t|
  {
    var s := t + sep + rest;
    if |t| == 0 {
      assert s[..|sep|] == sep;
    } else if s[..|sep|] != sep {
      ContainsAfter(t[1..], sep, rest);
      assert s[1..] == t[1..] + sep + rest;
    }
  }

  /** One decimal digit. */
  function Digit(d: nat): char
    requires d < 10
  {
    (d + '0' as int) as char
  }

  /** Every character is a decimal digit. */
  predicate IsDigits(s: string)
  {
    forall k :: 0 <= k < |s| ==> '0' <= s[k] <= '9'
  }

  /** The number a string of decimal digits denotes, most significant digit first. */
  function DecimalValue(s: string): nat
    requires IsDigits(s)
  {
    if |s| == 0 then 0 else DecimalValue(s[..|s| - 1]) * 10 + (s[|s| - 1] as int - '0' as int)
  }

  /** `str(n)` for a natural number: its decimal digits, most significant first, without
      leading zeros. */
  function NatToString(n: nat): (r: string)
    ensures |r| >= 1 && (n < 10 <==> |r| == 1)
    ensures IsDigits(r) && DecimalValue(r) == n
    ensures r[0] == '0' ==> n == 0
    decreases n
  {
    if n < 10 then [Digit(n)]
    else
      var high := NatToString(n / 10);
      var r := high + [Digit(n % 10)];
      assert r[..|r| - 1] == high;
      r
  }

  /** `s.strip(c)`: every leading and every trailing `c` removed. */
  function Strip(s: string, c: char): (r: string)
    ensures |r| <= |s|
    ensures |r| > 0 ==> r[0] != c && r[|r| - 1] != c
    decreases |s|
  {
    if |s| == 0 then s
    else if s[0] == c then Strip(s[1..], c)
    else if s[|s| - 1] == c then Strip(s[..|s| - 1], c)
    else s
  }

  /** `Strip` removes a run of `c` at each end and nothing else: the result is a slice of
      `s` and everything cut off on either side is `c`. */
  lemma {:induction false} StripSlice(s: string, c: char) returns (i: nat, j: nat)
    ensures i <= j <= |s| && Strip(s, c) == s[i..j]
    ensures forall k :: 0 <= k < i ==> s[k] == c
    ensures forall k :: j <= k < |s| ==> s[k] == c
    decreases |s|
  {
    if |s| == 0 {
      i, j := 0, 0;
    } else if s[0] == c {
      var i', j' := StripSlice(s[1..], c);
      i, j := i' + 1, j' + 1;
      assert s[1..][i'..j'] == s[i..j];
      forall k | 0 <= k < i ensures s[k] == c {
        if k > 0 { assert s[k] == s[1..][k - 1]; }
      }
      forall k | j <= k < |s| ensures s[k] == c {
        assert s[k] == s[1..][k - 1];
      }
    } else if s[|s| - 1] == c {
      var t := s[..|s| - 1];
      i, j := StripSlice(t, c);
      assert t[i..j] == s[i..j];
      assert t[0] == s[0];
      forall k | j <= k < |s| ensures s[k] == c {
        if k < |s| - 1 { assert s[k] == t[k]; }
      }
    } else {
      i, j := 0, |s|;
    }
  }

  /** With a one-character separator, `sep in s` is membership of that character. */
  lemma {:induction false} ContainsOneChar(s: string, sep: string)
    requires |sep| == 1
    ensures Contains(s, sep) <==> sep[0] in s
    decreases |s|
  {
    if |s| > 0 {
      ContainsOneChar(s[1..], sep);
      assert s == [s[0]] + s[1..];
    }
  }

  /** Regrouping a concatenation of three sequences. */
  lemma {:induction false} AppendAssociative<T>(x: seq<T>, y: seq<T>, z: seq<T>)
    ensures (x + y) + z == x + (y + z)
  {
  }

  /** `sub` sits in `s` from position `i` on. */
  predicate OccursAt(s: string, sub: string, i: int)
  {
    0 <= i && i + |sub| <= |s| && s[i..i + |sub|] == sub
  }

  /** `sub in s` holds exactly when `sub` sits at some position of `s`. */
  lemma {:induction false} ContainsAt(s: string, sub: string)
    ensures Contains(s, sub) <==> exists i :: OccursAt(s, sub, i)
    decreases |s|
  {
    if |s| < |sub| {
      forall i | OccursAt(s, sub, i) ensures false {
      }
    } else if s[..|sub|] == sub {
      assert OccursAt(s, sub, 0);
    } else {
      ContainsAt(s[1..], sub);
      if Contains(s[1..], sub) {
        var i :| OccursAt(s[1..], sub, i);
        SliceOfTail(s, i + 1, |sub|);
        assert OccursAt(s, sub, i + 1);
      } else {
        forall i | OccursAt(s, sub, i) ensures false {
          if i > 0 {
            SliceOfTail(s, i, |sub|);
            assert OccursAt(s[1..], sub, i - 1);
          }
        }
      }
    }
  }

  /** A window of a string's tail is the window one place further on in the string. */
  lemma {:induction false} SliceOfTail(s: string, i: nat, n: nat)
    requires 0 < i && i + n <= |s|
    ensures s[1..][i - 1..i - 1 + n] == s[i..i + n]
  {
    var t, w := s[1..][i - 1..i - 1 + n], s[i..i + n];
    forall k | 0 <= k < n ensures t[k] == w[k] {
      assert t[k] == s[1..][i - 1 + k];
    }
  }

  /** A separator cannot form across a glue none of whose characters it holds: gluing
      two separator-free strings with it gives a separator-free string. */
  lemma {:induction false} GluedFree(a: string, glue: string, b: string, sep: string)
    requires |sep| > 0 && |glue| > 0 && forall c :: c in sep ==> c !in glue
    requires !Contains(a, sep) && !Contains(b, sep)
    ensures !Contains(a + glue + b, sep)
  {
    forall i ensures !OccursAt(a + glue + b, sep, i) {
      NoOccurrenceAt(a, glue, b, sep, i);
    }
    ContainsAt(a + glue + b, sep);
  }

  /** The separator does not sit at position `i` of the glued string: there it would lie
      inside `a`, inside `b`, or cover a character of the glue. */
  lemma {:induction false} NoOccurrenceAt(a: string, glue: string, b: string, sep: string, i: int)
    requires |sep| > 0 && |glue| > 0 && forall c :: c in sep ==> c !in glue
    requires !Contains(a, sep) && !Contains(b, sep)
    ensures !OccursAt(a + glue + b, sep, i)
  {
    var s := a + glue + b;
    if 0 <= i && i + |sep| <= |s| {
      if i + |sep| <= |a| {
        ContainsAt(a, sep);
        assert !OccursAt(a, sep, i);
        assert a[i..i + |sep|] == s[i..i + |sep|];
      } else if i >= |a| + |glue| {
        ContainsAt(b, sep);
        var j := i - |a| - |glue|;
        assert !OccursAt(b, sep, j);
        assert b[j..j + |sep|] == s[i..i + |sep|];
      } else {
        var p := if i < |a| then |a| else i;
        assert s[p] == glue[p - |a|] && s[p] == s[i..i + |sep|][p - i];
        assert glue[p - |a|] in glue && sep[p - i] in sep;
      }
    }
  }
}
