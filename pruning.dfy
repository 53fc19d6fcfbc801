/** Sibling pruning: every group of path-strings that share a branch (the string before
    its last separator) becomes one entry, placed where the branch first occurs, whose
    value joins the group's values in their original order. */
module Pruning {

  import opened Text

  /** `separator.join(string.split(separator)[0:-1])` */
  function Branch(s: string, sep: string): string
    requires |sep| > 0
  {
    Join(AllButLast(Split(s, sep)), sep)
  }

  /** `string.split(separator)[-1]` */
  function Value(s: string, sep: string): string
    requires |sep| > 0
  {
    Last(Split(s, sep))
  }

  /** The branch of every string. */
  function Branches(strings: seq<string>, sep: string): (bs: seq<string>)
    requires |sep| > 0
    ensures |bs| == |strings|
  {
    if |strings| == 0 then []
    else Branches(strings[..|strings| - 1], sep) + [Branch(strings[|strings| - 1], sep)]
  }

  /** The value of every string. */
  function Values(strings: seq<string>, sep: string): (vs: seq<string>)
    requires |sep| > 0
    ensures |vs| == |strings|
  {
    if |strings| == 0 then []
    else Values(strings[..|strings| - 1], sep) + [Value(strings[|strings| - 1], sep)]
  }

  lemma {:induction false} BranchesAt(strings: seq<string>, sep: string, i: nat)
    requires |sep| > 0 && i < |strings|
    ensures Branches(strings, sep)[i] == Branch(strings[i], sep)
    ensures Values(strings, sep)[i] == Value(strings[i], sep)
    decreases |strings|
  {
    if i < |strings| - 1 {
      BranchesAt(strings[..|strings| - 1], sep, i);
    }
  }

  /** No earlier index has the key of index `a`. */
  predicate IsFirst(keys: seq<string>, a: nat)
    requires a < |keys|
  {
    forall f :: 0 <= f < a ==> keys[f] != keys[a]
  }

  /** The values at the indices in `lo..hi` whose key is `br`, in order. */
  function ValuesOf(keys: seq<string>, vals: seq<string>, br: string, lo: nat, hi: nat): seq<string>
    requires |keys| == |vals| && lo <= hi <= |keys|
    decreases hi - lo
  {
    if lo == hi then []
    else ValuesOf(keys, vals, br, lo, hi - 1) + (if keys[hi - 1] == br then [vals[hi - 1]] else [])
  }

  /** The entry a first occurrence stands for: unchanged when no later string shares its
      branch, otherwise the branch, the separator and all the group's values joined with
      `concat`. */
  function Entry(strings: seq<string>, keys: seq<string>, vals: seq<string>, sep: string, concat: string, a: nat): string
    requires |keys| == |vals| == |strings| && a < |strings|
  {
    var vs := ValuesOf(keys, vals, keys[a], a, |keys|);
    if |vs| <= 1 then strings[a] else keys[a] + sep + Join(vs, concat)
  }

  /** The first occurrences among the first `n` indices, in increasing order. */
  function Firsts(keys: seq<string>, n: nat): (fs: seq<nat>)
    requires n <= |keys|
    ensures forall j :: 0 <= j < |fs| ==> fs[j] < n && IsFirst(keys, fs[j])
    ensures forall j, k :: 0 <= j < k < |fs| ==> fs[j] < fs[k]
    ensures |fs| <= n
  {
    if n == 0 then []
    else Firsts(keys, n - 1) + (if IsFirst(keys, n - 1) then [n - 1] else [])
  }

  /** Every first occurrence below `n` is listed by `Firsts`. */
  lemma {:induction false} FirstsComplete(keys: seq<string>, n: nat, a: nat)
    requires a < n <= |keys| && IsFirst(keys, a)
    ensures a in Firsts(keys, n)
    decreases n
  {
    if a < n - 1 {
      FirstsComplete(keys, n - 1, a);
    }
    assert Firsts(keys, n) == Firsts(keys, n - 1) + (if IsFirst(keys, n - 1) then [n - 1] else []);
  }

  /** The entries of the first occurrences among the first `n` strings. */
  function EntriesUpTo(strings: seq<string>, keys: seq<string>, vals: seq<string>, sep: string, concat: string, n: nat): (r: seq<string>)
    requires |keys| == |vals| == |strings| && n <= |strings|
    ensures |r| == |Firsts(keys, n)|
  {
    if n == 0 then []
    else EntriesUpTo(strings, keys, vals, sep, concat, n - 1)
         + (if IsFirst(keys, n - 1) then [Entry(strings, keys, vals, sep, concat, n - 1)] else [])
  }

  /** What `prune_equivalent_nodes` returns. */
  function Pruned(strings: seq<string>, sep: string, concat: string): (r: seq<string>)
    requires |sep| > 0
    ensures |r| == |FirstOccurrences(strings, sep)| <= |strings|
  {
    EntriesUpTo(strings, Branches(strings, sep), Values(strings, sep), sep, concat, |strings|)
  }

  /** The first occurrences of a list of strings' branches. */
  function FirstOccurrences(strings: seq<string>, sep: string): seq<nat>
    requires |sep| > 0
  {
    Firsts(Branches(strings, sep), |strings|)
  }

  /** `entries[j]` is the entry of the string at index `firsts[j]`, for every `j`. */
  predicate EntriesMatch(strings: seq<string>, keys: seq<string>, vals: seq<string>, sep: string, concat: string,
                         entries: seq<string>, firsts: seq<nat>)
    requires |keys| == |vals| == |strings|
  {
    |entries| == |firsts| &&
    forall j :: 0 <= j < |firsts| ==> firsts[j] < |strings| && entries[j] == Entry(strings, keys, vals, sep, concat, firsts[j])
  }

  lemma {:induction false} EntriesAtFirsts(strings: seq<string>, keys: seq<string>, vals: seq<string>, sep: string, concat: string, n: nat)
    requires |keys| == |vals| == |strings| && n <= |strings|
    ensures EntriesMatch(strings, keys, vals, sep, concat, EntriesUpTo(strings, keys, vals, sep, concat, n), Firsts(keys, n))
    decreases n
  {
    if n > 0 {
      EntriesAtFirsts(strings, keys, vals, sep, concat, n - 1);
      var entries, firsts := EntriesUpTo(strings, keys, vals, sep, concat, n - 1), Firsts(keys, n - 1);
      if IsFirst(keys, n - 1) {
        var entries', firsts' := entries + [Entry(strings, keys, vals, sep, concat, n - 1)], firsts + [n - 1];
        forall j | 0 <= j < |firsts'| ensures entries'[j] == Entry(strings, keys, vals, sep, concat, firsts'[j]) {
          if j < |firsts| {
            assert entries'[j] == entries[j] && firsts'[j] == firsts[j];
          }
        }
        assert EntriesUpTo(strings, keys, vals, sep, concat, n) == entries';
        assert Firsts(keys, n) == firsts';
      } else {
        assert entries + [] == entries && firsts + [] == firsts;
        assert EntriesUpTo(strings, keys, vals, sep, concat, n) == entries;
        assert Firsts(keys, n) == firsts;
      }
    }
  }

  /** Some index before both `a` and `x` has the key of `x`: the source has then put `x`
      on its `skip` list. */
  predicate MergedBefore(keys: seq<string>, a: nat, x: nat)
    requires x < |keys|
  {
    exists f :: 0 <= f < a && f < x && keys[f] == keys[x]
  }

  /** Scanning from a first occurrence `a` adds exactly the later members of its group. */
  lemma {:induction false} MergedBeforeStep(keys: seq<string>, a: nat, x: nat)
    requires a < |keys| && x < |keys|
    ensures MergedBefore(keys, a + 1, x) <==> MergedBefore(keys, a, x) || (a < x && keys[x] == keys[a])
  {
    if MergedBefore(keys, a + 1, x) && !MergedBefore(keys, a, x) {
      var f :| 0 <= f < a + 1 && f < x && keys[f] == keys[x];
      assert f == a;
    }
  }

  /** An index has been merged into an earlier one exactly when it is not the first of
      its key. */
  lemma {:induction false} MergedBeforeSelf(keys: seq<string>, a: nat)
    requires a < |keys|
    ensures MergedBefore(keys, a, a) <==> !IsFirst(keys, a)
  {
  }

  /** Passing over an index that is already merged adds nothing new. */
  lemma {:induction false} MergedBeforeSkipped(keys: seq<string>, a: nat, x: nat)
    requires a < |keys| && x < |keys| && MergedBefore(keys, a, a)
    ensures MergedBefore(keys, a + 1, x) <==> MergedBefore(keys, a, x)
  {
    MergedBeforeStep(keys, a, x);
    if a < x && keys[x] == keys[a] {
      var f :| 0 <= f < a && f < a && keys[f] == keys[a];
      assert f < x;
    }
  }

  /** `keys` and `vals` hold the branch and the value of every string. */
  predicate SplitsOf(strings: seq<string>, sep: string, keys: seq<string>, vals: seq<string>)
    requires |sep| > 0
  {
    && |keys| == |strings| && |vals| == |strings|
    && forall i {:trigger strings[i]} :: 0 <= i < |strings| ==>
         keys[i] == Branch(strings[i], sep) && vals[i] == Value(strings[i], sep)
  }

  lemma {:induction false} SplitsOfAll(strings: seq<string>, sep: string)
    requires |sep| > 0
    ensures SplitsOf(strings, sep, Branches(strings, sep), Values(strings, sep))
  {
    forall i | 0 <= i < |strings|
      ensures Branches(strings, sep)[i] == Branch(strings[i], sep) && Values(strings, sep)[i] == Value(strings[i], sep)
    {
      BranchesAt(strings, sep, i);
    }
  }

  /** `string.split(separator)` for one string of the list, giving its branch and value. */
  method SplitAt(strings: seq<string>, sep: string, i: nat, ghost keys: seq<string>, ghost vals: seq<string>)
    returns (branch: string, value: string)
    requires |sep| > 0 && i < |strings| && SplitsOf(strings, sep, keys, vals)
    ensures branch == keys[i] && value == vals[i]
  {
    var parts := Split(strings[i], sep);
    branch, value := Join(AllButLast(parts), sep), Last(parts);
  }

  /** The inner loop of `prune_equivalent_nodes`: scans the strings after `a`, gathers the
      values of those that share the branch of `a` (led by the value of `a` itself as soon
      as there is one) and appends their indices to `skip`. */
  method CollectGroup(strings: seq<string>, sep: string, a: nat, skip: seq<nat>, ghost keys: seq<string>, ghost vals: seq<string>)
    returns (buffer: seq<string>, skipped: seq<nat>)
    requires |sep| > 0 && a < |strings| && SplitsOf(strings, sep, keys, vals)
    ensures var later := ValuesOf(keys, vals, keys[a], a + 1, |strings|);
      && buffer == (if later == [] then [] else [vals[a]] + later)
      && forall x :: 0 <= x < |strings| ==> (x in skipped <==> x in skip || (a < x && keys[x] == keys[a]))
  {
    buffer, skipped := [], skip;
    var branchA, valueA := SplitAt(strings, sep, a, keys, vals);
    var tail := strings[a + 1..];
    var b := 0;
    while b < |tail|
      invariant b <= |tail|
      invariant buffer == Grouped(valueA, ValuesOf(keys, vals, branchA, a + 1, a + 1 + b))
      invariant forall x :: 0 <= x < |strings| ==>
        (x in skipped <==> x in skip || (a + 1 <= x < a + 1 + b && keys[x] == branchA))
    {
      var branchB, valueB := SplitAt(strings, sep, a + 1 + b, keys, vals);
      ghost var found, skipBefore := ValuesOf(keys, vals, branchA, a + 1, a + 1 + b), skipped;
      assert ValuesOf(keys, vals, branchA, a + 1, a + 2 + b) == found + (if branchB == branchA then [valueB] else []);
      if branchA == branchB {
        if buffer == [] {
          buffer := buffer + [valueA];
        }
        buffer := buffer + [valueB];
        GroupedSnoc(valueA, found, valueB);
        skipped := skipped + [a + b + 1];
      }
      SkipStep(keys, skip, skipBefore, skipped, a, b, branchA);
      b := b + 1;
    }
  }

  /** The buffer after some values of a group: empty while there are none, otherwise the
      first string's value followed by them. */
  function Grouped(first: string, later: seq<string>): seq<string>
  {
    if later == [] then [] else [first] + later
  }

  /** One more value of the group extends the buffer, led by the first value if it was
      empty. */
  lemma {:induction false} GroupedSnoc(first: string, later: seq<string>, v: string)
    ensures Grouped(first, later + [v]) == (if later == [] then [first] else Grouped(first, later)) + [v]
  {
    if later == [] {
      assert later + [v] == [v];
    }
  }

  /** One step of the inner loop adds index `a + 1 + b` to the skipped indices exactly
      when it shares the branch of `a`. */
  lemma {:induction false} SkipStep(keys: seq<string>, skip: seq<nat>, before: seq<nat>, after: seq<nat>, a: nat, b: nat, br: string)
    requires a + 1 + b < |keys|
    requires after == if keys[a + 1 + b] == br then before + [a + b + 1] else before
    requires forall x :: 0 <= x < |keys| ==> (x in before <==> x in skip || (a + 1 <= x < a + 1 + b && keys[x] == br))
    ensures forall x :: 0 <= x < |keys| ==> (x in after <==> x in skip || (a + 1 <= x < a + 2 + b && keys[x] == br))
  {
    forall x | 0 <= x < |keys|
      ensures x in after <==> x in skip || (a + 1 <= x < a + 2 + b && keys[x] == br)
    {
      assert x in after <==> x in before || (keys[a + 1 + b] == br && x == a + b + 1);
    }
  }

  /** `prune_equivalent_nodes`: a `skip` list of indices already merged into an earlier
      entry, and for every other index a scan of all later strings. */
  method PruneEquivalentNodes(strings: seq<string>, sep: string, concat: string) returns (pruned: seq<string>)
    requires |sep| > 0
    ensures pruned == Pruned(strings, sep, concat)
  {
    ghost var keys, vals := Branches(strings, sep), Values(strings, sep);
    SplitsOfAll(strings, sep);
    var skip: seq<nat> := [];
    pruned := [];
    var a := 0;
    while a < |strings|
      invariant a <= |strings|
      invariant pruned == EntriesUpTo(strings, keys, vals, sep, concat, a)
      invariant forall x :: 0 <= x < |strings| ==> (x in skip <==> MergedBefore(keys, a, x))
    {
      MergedBeforeSelf(keys, a);
      if a in skip {
        forall x | 0 <= x < |strings| ensures MergedBefore(keys, a + 1, x) <==> MergedBefore(keys, a, x) {
          MergedBeforeSkipped(keys, a, x);
        }
        a := a + 1;
        continue;
      }
      var entry;
      entry, skip := MergeGroup(strings, sep, concat, a, skip, keys, vals);
      forall x | 0 <= x < |strings| ensures x in skip <==> MergedBefore(keys, a + 1, x) {
        MergedBeforeStep(keys, a, x);
      }
      pruned := pruned + [entry];
      a := a + 1;
    }
  }

  /** The body of the outer loop for an index not yet merged: the entry it stands for,
      and the `skip` list grown by the later members of its group. */
  method MergeGroup(strings: seq<string>, sep: string, concat: string, a: nat, skip: seq<nat>, ghost keys: seq<string>, ghost vals: seq<string>)
    returns (entry: string, skipped: seq<nat>)
    requires |sep| > 0 && a < |strings| && SplitsOf(strings, sep, keys, vals)
    ensures entry == Entry(strings, keys, vals, sep, concat, a)
    ensures forall x :: 0 <= x < |strings| ==> (x in skipped <==> x in skip || (a < x && keys[x] == keys[a]))
  {
    var branchA, _ := SplitAt(strings, sep, a, keys, vals);
    var buffer;
    buffer, skipped := CollectGroup(strings, sep, a, skip, keys, vals);
    ValuesOfFromFirst(keys, vals, a);
    if buffer == [] {
      entry := strings[a];
    } else {
      entry := branchA + sep + Join(buffer, concat);
    }
  }

  /** The values of a group, read from its member `a` on, start with `a`'s own value. */
  lemma {:induction false} ValuesOfFromFirst(keys: seq<string>, vals: seq<string>, a: nat)
    requires |keys| == |vals| && a < |keys|
    ensures ValuesOf(keys, vals, keys[a], a, |keys|) == [vals[a]] + ValuesOf(keys, vals, keys[a], a + 1, |keys|)
  {
    ValuesOfSplit(keys, vals, keys[a], a, |keys|);
  }

  lemma {:induction false} ValuesOfSplit(keys: seq<string>, vals: seq<string>, br: string, lo: nat, hi: nat)
    requires |keys| == |vals| && lo < hi <= |keys|
    ensures ValuesOf(keys, vals, br, lo, hi) == ValuesOf(keys, vals, br, lo, lo + 1) + ValuesOf(keys, vals, br, lo + 1, hi)
    decreases hi - lo
  {
    if hi > lo + 1 {
      ValuesOfSplit(keys, vals, br, lo, hi - 1);
    }
  }

  /** `prune_equivalent_nodes` never lengthens the list: it keeps one entry per distinct
      branch, each at the position where its branch first occurs, in input order. */
  lemma {:induction false} PrunedAtFirstOccurrences(strings: seq<string>, sep: string, concat: string)
    requires |sep| > 0
    ensures |Pruned(strings, sep, concat)| == |FirstOccurrences(strings, sep)| <= |strings|
    ensures forall j :: 0 <= j < |Pruned(strings, sep, concat)| ==>
      Pruned(strings, sep, concat)[j]
        == Entry(strings, Branches(strings, sep), Values(strings, sep), sep, concat, FirstOccurrences(strings, sep)[j])
  {
    EntriesAtFirsts(strings, Branches(strings, sep), Values(strings, sep), sep, concat, |strings|);
  }

  /** The least index whose key is that of index `x`. */
  lemma {:induction false} FirstOfKeyExists(keys: seq<string>, x: nat, y: nat)
    requires y <= x < |keys| && keys[y] == keys[x]
    ensures exists f :: 0 <= f <= y && IsFirst(keys, f) && keys[f] == keys[x]
    decreases y
  {
    if !IsFirst(keys, y) {
      var g :| 0 <= g < y && keys[g] == keys[y];
      FirstOfKeyExists(keys, x, g);
    }
  }

  /** The first occurrences have pairwise distinct keys. */
  lemma {:induction false} FirstsDistinct(keys: seq<string>)
    ensures var fs := Firsts(keys, |keys|);
      forall j, k :: 0 <= j < k < |fs| ==> keys[fs[j]] != keys[fs[k]]
  {
    var fs := Firsts(keys, |keys|);
    forall j, k | 0 <= j < k < |fs| ensures keys[fs[j]] != keys[fs[k]] {
      FirstDiffers(keys, fs[j], fs[k]);
    }
  }

  /** A first occurrence differs in key from every earlier index. */
  lemma {:induction false} FirstDiffers(keys: seq<string>, f: nat, a: nat)
    requires f < a < |keys| && IsFirst(keys, a)
    ensures keys[f] != keys[a]
  {
  }

  /** The position among the first occurrences of the one that shares the key of `x`. */
  lemma {:induction false} FirstIndex(keys: seq<string>, x: nat) returns (j: nat)
    requires x < |keys|
    ensures j < |Firsts(keys, |keys|)|
    ensures Firsts(keys, |keys|)[j] <= x && keys[Firsts(keys, |keys|)[j]] == keys[x]
  {
    FirstOfKeyExists(keys, x, x);
    var f :| 0 <= f <= x && IsFirst(keys, f) && keys[f] == keys[x];
    var fs := Firsts(keys, |keys|);
    FirstsComplete(keys, |keys|, f);
    j :| 0 <= j < |fs| && fs[j] == f;
  }

  /** The branches the entries stand for are pairwise distinct, and every input string's
      branch is the branch of an entry at or before its own position. */
  lemma {:induction false} PrunedBranchesCover(strings: seq<string>, sep: string)
    requires |sep| > 0
    ensures var fs := FirstOccurrences(strings, sep);
      && (forall j, k :: 0 <= j < k < |fs| ==> Branch(strings[fs[j]], sep) != Branch(strings[fs[k]], sep))
      && (forall x :: 0 <= x < |strings| ==>
            exists j :: 0 <= j < |fs| && fs[j] <= x && Branch(strings[fs[j]], sep) == Branch(strings[x], sep))
  {
    var keys, fs := Branches(strings, sep), FirstOccurrences(strings, sep);
    FirstsDistinct(keys);
    forall j, k | 0 <= j < k < |fs| ensures Branch(strings[fs[j]], sep) != Branch(strings[fs[k]], sep) {
      BranchesAt(strings, sep, fs[j]);
      BranchesAt(strings, sep, fs[k]);
    }
    forall x | 0 <= x < |strings|
      ensures exists j :: 0 <= j < |fs| && fs[j] <= x && Branch(strings[fs[j]], sep) == Branch(strings[x], sep)
    {
      var j := FirstIndex(keys, x);
      BranchesAt(strings, sep, fs[j]);
      BranchesAt(strings, sep, x);
    }
  }

  /** A merged entry gathers the value of every member of its group, earlier ones
      included: reading from the first occurrence on is reading the whole list. */
  lemma {:induction false} GroupValuesComplete(keys: seq<string>, vals: seq<string>, a: nat, lo: nat)
    requires |keys| == |vals| && lo <= a < |keys| && IsFirst(keys, a)
    ensures ValuesOf(keys, vals, keys[a], lo, |keys|) == ValuesOf(keys, vals, keys[a], a, |keys|)
    decreases a - lo
  {
    if lo < a {
      ValuesOfSplit(keys, vals, keys[a], lo, |keys|);
      GroupValuesComplete(keys, vals, a, lo + 1);
    }
  }

  /** An entry whose branch no other string shares is returned unchanged; an entry of a
      group of two or more is the branch, the separator, and the values of the whole
      group joined with `concat`, in their original order, its own value first. */
  lemma {:induction false} EntryShape(strings: seq<string>, sep: string, concat: string, a: nat)
    requires |sep| > 0 && a < |strings| && IsFirst(Branches(strings, sep), a)
    ensures var keys, vals := Branches(strings, sep), Values(strings, sep);
      var vs := ValuesOf(keys, vals, Branch(strings[a], sep), 0, |strings|);
      && |vs| >= 1 && vs[0] == Value(strings[a], sep)
      && (|vs| == 1 ==> Entry(strings, keys, vals, sep, concat, a) == strings[a])
      && (|vs| > 1 ==> Entry(strings, keys, vals, sep, concat, a) == Branch(strings[a], sep) + sep + Join(vs, concat))
  {
    var keys, vals := Branches(strings, sep), Values(strings, sep);
    BranchesAt(strings, sep, a);
    GroupValuesComplete(keys, vals, a, 0);
    ValuesOfFromFirst(keys, vals, a);
  }

  /** Joining strings free of a one-character separator with a symbol that does not
      hold it gives a string that does not hold it either. */
  lemma {:induction false} JoinKeepsOneCharOut(vs: seq<string>, concat: string, sep: string)
    requires |sep| == 1 && !Contains(concat, sep)
    requires forall i :: 0 <= i < |vs| ==> !Contains(vs[i], sep)
    ensures !Contains(Join(vs, concat), sep)
    decreases |vs|
  {
    ContainsOneChar(concat, sep);
    if |vs| > 0 {
      ContainsOneChar(vs[0], sep);
      ContainsOneChar(Join(vs, concat), sep);
      if |vs| > 1 {
        JoinKeepsOneCharOut(vs[1..], concat, sep);
        ContainsOneChar(Join(vs[1..], concat), sep);
      }
    }
  }

  /** Separator-free values joined with a non-empty symbol that shares no character with
      the separator give a separator-free string. */
  lemma {:induction false} JoinKeepsOut(vs: seq<string>, concat: string, sep: string)
    requires |sep| > 0 && |concat| > 0 && forall c :: c in sep ==> c !in concat
    requires forall i :: 0 <= i < |vs| ==> !Contains(vs[i], sep)
    ensures !Contains(Join(vs, concat), sep)
    decreases |vs|
  {
    if |vs| > 1 {
      JoinKeepsOut(vs[1..], concat, sep);
      GluedFree(vs[0], concat, Join(vs[1..], concat), sep);
    } else if |vs| == 1 {
      assert Join(vs, concat) == vs[0];
    }
  }

  /** A group's values are drawn from the values: if none holds the separator, neither
      does any value of a group. */
  lemma {:induction false} ValuesOfKeepOut(keys: seq<string>, vals: seq<string>, br: string, lo: nat, hi: nat, sep: string)
    requires |keys| == |vals| && lo <= hi <= |keys|
    requires forall k :: lo <= k < hi ==> !Contains(vals[k], sep)
    ensures forall i :: 0 <= i < |ValuesOf(keys, vals, br, lo, hi)| ==> !Contains(ValuesOf(keys, vals, br, lo, hi)[i], sep)
    decreases hi - lo
  {
    if lo < hi {
      ValuesOfKeepOut(keys, vals, br, lo, hi - 1, sep);
    }
  }

  /** Appending a separator-free value after the branch of `s` keeps that branch. */
  lemma {:induction false} BranchOfRebuilt(s: string, v: string, sep: string)
    requires |sep| > 0 && !Contains(v, sep)
    ensures Branch(Branch(s, sep) + sep + v, sep) == Branch(s, sep)
    ensures Value(Branch(s, sep) + sep + v, sep) == v
  {
    var p := AllButLast(Split(s, sep));
    SplitShape(s, sep);
    SplitNoSeparator(v, sep);
    if |p| == 0 {
      SplitFreeHead("", v, sep);
      assert "" + sep + v == Branch(s, sep) + sep + v;
      assert AllButLast(["", v]) == [""];
    } else {
      SplitJoinPrefix(p, v, sep);
      assert AllButLast(p + [v]) == p;
    }
  }

  /** When the joined values of a group cannot hold the separator, splitting the pruned
      strings again gives back the branches of the first occurrences, which are pairwise
      distinct. That is so for a one-character separator that the concat symbol does not
      hold, and for a non-empty concat symbol that shares no character with the
      separator. */
  lemma {:induction false} PrunedBranchesDistinct(strings: seq<string>, sep: string, concat: string)
    requires |sep| > 0 && !Contains(concat, sep)
    requires |sep| == 1 || (|concat| > 0 && forall c :: c in sep ==> c !in concat)
    ensures |Pruned(strings, sep, concat)| == |FirstOccurrences(strings, sep)|
    ensures var out := Pruned(strings, sep, concat);
      && (forall j :: 0 <= j < |out| ==> Branch(out[j], sep) == Branch(strings[FirstOccurrences(strings, sep)[j]], sep))
      && (forall j, k :: 0 <= j < k < |out| ==> Branch(out[j], sep) != Branch(out[k], sep))
  {
    var out := Pruned(strings, sep, concat);
    var keys, vals := Branches(strings, sep), Values(strings, sep);
    var fs := FirstOccurrences(strings, sep);
    PrunedAtFirstOccurrences(strings, sep, concat);
    PrunedBranchesCover(strings, sep);
    forall k | 0 <= k < |strings| ensures !Contains(vals[k], sep) {
      BranchesAt(strings, sep, k);
      SplitShape(strings[k], sep);
    }
    forall j | 0 <= j < |out| ensures Branch(out[j], sep) == Branch(strings[fs[j]], sep) {
      var a := fs[j];
      BranchesAt(strings, sep, a);
      var vs := ValuesOf(keys, vals, keys[a], a, |strings|);
      if |vs| > 1 {
        ValuesOfKeepOut(keys, vals, keys[a], a, |strings|, sep);
        if |sep| == 1 {
          JoinKeepsOneCharOut(vs, concat, sep);
        } else {
          JoinKeepsOut(vs, concat, sep);
        }
        BranchOfRebuilt(strings[a], Join(vs, concat), sep);
      }
    }
  }

  /** Pruning keeps the separator in every entry: an unchanged entry already held it,
      and a merged entry puts it between the branch and the joined values. */
  lemma {:induction false} PrunedHoldSeparator(strings: seq<string>, sep: string, concat: string)
    requires |sep| > 0 && forall i :: 0 <= i < |strings| ==> Contains(strings[i], sep)
    ensures forall j :: 0 <= j < |Pruned(strings, sep, concat)| ==> Contains(Pruned(strings, sep, concat)[j], sep)
  {
    var keys, vals := Branches(strings, sep), Values(strings, sep);
    var fs := FirstOccurrences(strings, sep);
    PrunedAtFirstOccurrences(strings, sep, concat);
    forall j | 0 <= j < |fs| ensures Contains(Entry(strings, keys, vals, sep, concat, fs[j]), sep) {
      var vs := ValuesOf(keys, vals, keys[fs[j]], fs[j], |strings|);
      if |vs| > 1 {
        ContainsAfter(keys[fs[j]], sep, Join(vs, concat));
      }
    }
  }

  /** The branches and values of the strings of the example below. */
  lemma {:induction false} ExampleSplits()
    ensures Split("b|x", "|") == ["b", "x"] && Split("b|y", "|") == ["b", "y"]
    ensures Split("b|x||y", "|") == ["b", "x", "", "y"]
  {
    SplitOfPair("b", "x");
    SplitOfPair("b", "y");
    SplitOfMerged();
  }

  /** Two one-letter segments joined with a bar split back into those segments. */
  lemma {:induction false} SplitOfPair(b: string, v: string)
    requires |b| == 1 && |v| == 1 && b != "|" && v != "|"
    ensures Split(b + "|" + v, "|") == [b, v]
  {
    assert '|' !in b by { assert b == [b[0]]; }
    assert '|' !in v by { assert v == [v[0]]; }
    ContainsOneChar(b, "|");
    FreeOneChar(b, "|");
    ContainsOneChar(v, "|");
    SplitFreeHead(b, v, "|");
    SplitNoSeparator(v, "|");
  }

  lemma {:induction false} SplitOfMerged()
    ensures Split("b|x||y", "|") == ["b", "x", "", "y"]
  {
    assert Free("", "|") && Free("b", "|") && Free("x", "|");
    assert !Contains("y", "|");
    assert Splittable(["b", "x", "", "y"], "|") by { assert AllButLast(["b", "x", "", "y"]) == ["b", "x", ""]; }
    SplitJoin(["b", "x", "", "y"], "|");
    assert Join(["b", "x", "", "y"], "|") == "b|x||y" by {
      assert ["b", "x", "", "y"][1..] == ["x", "", "y"];
      assert ["x", "", "y"][1..] == ["", "y"];
      assert ["", "y"][1..] == ["y"];
    }
  }

  /** The constructor only rejects a concat symbol equal to the separator; one that
      holds the separator moves the branch of a merged entry. */
  lemma {:induction false} ConcatHoldingSeparatorMovesBranch()
    ensures Pruned(["b|x", "b|y"], "|", "||") == ["b|x||y"]
    ensures Branch("b|x", "|") == "b" && Branch("b|x||y", "|") == "b|x|"
  {
    var s := ["b|x", "b|y"];
    ExampleBranches();
    ExampleKeys();
    var keys, vals := Branches(s, "|"), Values(s, "|");
    ExampleEntry(keys, vals);
    assert IsFirst(keys, 0) && !IsFirst(keys, 1);
    assert EntriesUpTo(s, keys, vals, "|", "||", 1) == ["b|x||y"];
  }

  /** The keys and values of the example's list. */
  lemma {:induction false} ExampleKeys()
    ensures Branches(["b|x", "b|y"], "|") == ["b", "b"] && Values(["b|x", "b|y"], "|") == ["x", "y"]
  {
    var s := ["b|x", "b|y"];
    ExampleBranches();
    BranchesAt(s, "|", 0);
    BranchesAt(s, "|", 1);
  }

  /** The example's group merges into one entry. */
  lemma {:induction false} ExampleEntry(keys: seq<string>, vals: seq<string>)
    requires keys == ["b", "b"] && vals == ["x", "y"]
    ensures Entry(["b|x", "b|y"], keys, vals, "|", "||", 0) == "b|x||y"
  {
    assert ValuesOf(keys, vals, "b", 0, 2) == ["x", "y"] by {
      assert ValuesOf(keys, vals, "b", 0, 1) == ["x"];
    }
    assert Join(["x", "y"], "||") == "x||y" by { assert ["x", "y"][1..] == ["y"]; }
  }

  /** The branches and values of the example's strings. */
  lemma {:induction false} ExampleBranches()
    ensures Branch("b|x", "|") == "b" && Value("b|x", "|") == "x"
    ensures Branch("b|y", "|") == "b" && Value("b|y", "|") == "y"
    ensures Branch("b|x||y", "|") == "b|x|"
  {
    ExampleSplits();
    assert AllButLast(["b", "x"]) == ["b"] && AllButLast(["b", "y"]) == ["b"];
    assert AllButLast(["b", "x", "", "y"]) == ["b", "x", ""];
    assert ["b", "x", ""][1..] == ["x", ""];
    assert ["x", ""][1..] == [""];
  }
}
