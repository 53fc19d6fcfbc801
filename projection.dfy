/** Projection of one document's path-strings into one row of a table with a multi-level
    header: every string becomes a column whose header levels are path segments and whose
    datum is the string's value. */
module Projection {

  import opened Text

  /** One row of the table: the document's name, the header as a list of levels (level
      `i` holds one entry per column) and one datum per column. */
  datatype Row = Row(name: string, header: seq<seq<string>>, data: seq<string>)

  /** Header level `i` of a split path for `h` plain levels after skipping `offset`
      segments: below `h` it is segment `offset + i`; level `h` is the overflow level,
      the remaining inner segments joined with `" - "`. */
  function LevelOf(parts: seq<string>, offset: nat, h: nat, i: nat): string
    requires offset + h < |parts| && i <= h
  {
    if i < h then parts[offset + i] else Join(parts[offset + h..|parts| - 1], " - ")
  }

  /** Header level `i` of a path-string. */
  function Level(s: string, sep: string, offset: nat, h: nat, i: nat): string
    requires |sep| > 0 && offset + h <= Count(s, sep) && i <= h
  {
    SplitCount(s, sep);
    LevelOf(Split(s, sep), offset, h, i)
  }

  /** The split of every string. */
  function Splits(strings: seq<string>, sep: string): (ps: seq<seq<string>>)
    requires |sep| > 0
    ensures |ps| == |strings|
  {
    if |strings| == 0 then [] else Splits(strings[..|strings| - 1], sep) + [Split(strings[|strings| - 1], sep)]
  }

  lemma {:induction false} SplitsAt(strings: seq<string>, sep: string, k: nat)
    requires |sep| > 0 && k < |strings|
    ensures Splits(strings, sep)[k] == Split(strings[k], sep)
    ensures |Splits(strings, sep)[k]| == Count(strings[k], sep) + 1
    decreases |strings|
  {
    if k < |strings| - 1 {
      SplitsAt(strings[..|strings| - 1], sep, k);
    } else {
      SplitCount(strings[k], sep);
    }
  }

  /** The datum of a path-string: its last segment. */
  function Datum(s: string, sep: string): string
    requires |sep| > 0
  {
    Last(Split(s, sep))
  }

  /** Every string is deep enough for `h` plain levels after `offset` skipped ones. */
  predicate DeepEnough(strings: seq<string>, sep: string, offset: nat, h: nat)
    requires |sep| > 0
  {
    forall j :: 0 <= j < |strings| ==> offset + h <= Count(strings[j], sep)
  }

  /** `row` is the projection of `strings`: one column per string, `h` plain levels plus
      the overflow level unless it is dropped, and the strings' values as data. */
  predicate Projects(row: Row, name: string, strings: seq<string>, sep: string, offset: nat, h: nat, drop: bool)
    requires |sep| > 0 && DeepEnough(strings, sep, offset, h)
  {
    && row.name == name
    && |row.header| == (if drop then h else h + 1)
    && |row.data| == |strings|
    && (forall i :: 0 <= i < |row.header| ==> |row.header[i]| == |strings|)
    && (forall i, j :: 0 <= i < |row.header| && 0 <= j < |strings| ==> row.header[i][j] == Level(strings[j], sep, offset, h, i))
    && (forall j :: 0 <= j < |strings| ==> row.data[j] == Datum(strings[j], sep))
  }

  /** The per-document body of the table builders: `header = [[] for _ in range(h+1)]`,
      then for every string its split segments are appended level by level, the
      overflow join to level `h` and the last segment to `data`; the overflow level is
      deleted at the end when `drop` holds. */
  method BuildRow(name: string, strings: seq<string>, sep: string, offset: nat, h: nat, drop: bool) returns (row: Row)
    requires |sep| > 0 && DeepEnough(strings, sep, offset, h)
    ensures Projects(row, name, strings, sep, offset, h, drop)
  {
    ghost var parts := Splits(strings, sep);
    forall k | 0 <= k < |strings| ensures offset + h < |parts[k]| {
      SplitsAt(strings, sep, k);
    }
    var header, data := BuildColumns(strings, sep, offset, h, parts);
    if drop {
      header := header[..h];
    }
    row := Row(name, header, data);
    forall k | 0 <= k < |strings|
      ensures forall i :: 0 <= i <= h ==> Level(strings[k], sep, offset, h, i) == LevelOf(parts[k], offset, h, i)
      ensures Datum(strings[k], sep) == Last(parts[k])
    {
      SplitsAt(strings, sep, k);
    }
  }

  /** The loop over the strings: every string's column is appended to all `h + 1`
      levels and its value to `data`. */
  method BuildColumns(strings: seq<string>, sep: string, offset: nat, h: nat, ghost parts: seq<seq<string>>)
    returns (header: seq<seq<string>>, data: seq<string>)
    requires |sep| > 0 && parts == Splits(strings, sep)
    requires forall k :: 0 <= k < |strings| ==> offset + h < |parts[k]|
    ensures |data| == |strings| && |header| == h + 1
    ensures forall i :: 0 <= i <= h ==> |header[i]| == |strings|
    ensures forall i, k :: 0 <= i <= h && 0 <= k < |strings| ==> header[i][k] == LevelOf(parts[k], offset, h, i)
    ensures forall k :: 0 <= k < |strings| ==> data[k] == Last(parts[k])
  {
    data := [];
    header := seq(h + 1, _ => []);
    for j := 0 to |strings|
      invariant |data| == j && |header| == h + 1
      invariant forall i :: 0 <= i <= h ==> |header[i]| == j
      invariant forall i, k :: 0 <= i <= h && 0 <= k < j ==> header[i][k] == LevelOf(parts[k], offset, h, i)
      invariant forall k :: 0 <= k < j ==> data[k] == Last(parts[k])
    {
      var sstring := Split(strings[j], sep);
      SplitsAt(strings, sep, j);
      ghost var done := header;
      header := AppendColumn(header, sstring, offset, h);
      data := data + [Last(sstring)];
      forall i, k | 0 <= i <= h && 0 <= k <= j
        ensures header[i][k] == LevelOf(parts[k], offset, h, i)
      {
        if k < j { assert header[i][k] == done[i][k]; }
      }
    }
  }

  /** One string's column: its segments from `offset` on are appended to the `h` plain
      levels, and the join of the remaining inner segments to the overflow level. */
  method AppendColumn(header: seq<seq<string>>, sstring: seq<string>, offset: nat, h: nat) returns (next: seq<seq<string>>)
    requires |header| == h + 1 && offset + h < |sstring|
    ensures |next| == h + 1
    ensures forall i :: 0 <= i <= h ==> next[i] == header[i] + [LevelOf(sstring, offset, h, i)]
  {
    next := header;
    for i := 0 to h
      invariant |next| == h + 1
      invariant forall i' :: 0 <= i' < i ==> next[i'] == header[i'] + [sstring[offset + i']]
      invariant forall i' :: i <= i' <= h ==> next[i'] == header[i']
    {
      next := next[i := next[i] + [sstring[offset + i]]];
    }
    next := next[h := next[h] + [Join(sstring[h + offset..|sstring| - 1], " - ")]];
  }

  /** The overflow level of a string exactly `offset + h` deep is empty: this is the
      level the class drops when the shallowest and the deepest string agree. */
  lemma {:induction false} OverflowOfShallowestIsEmpty(s: string, sep: string, offset: nat, h: nat)
    requires |sep| > 0 && Count(s, sep) == offset + h
    ensures Level(s, sep, offset, h, h) == ""
  {
    SplitCount(s, sep);
    assert Split(s, sep)[offset + h..|Split(s, sep)| - 1] == [];
  }

  /** For a string that is the join of a splittable path, the header levels are the
      path's segments from `offset` on, the overflow level joins the inner segments left
      over, and the datum is the path's last segment. */
  lemma {:induction false} LevelsOfPath(path: seq<string>, sep: string, offset: nat, h: nat)
    requires |sep| > 0 && Splittable(path, sep) && offset + h < |path|
    ensures Count(Join(path, sep), sep) == |path| - 1
    ensures forall i :: 0 <= i < h ==> Level(Join(path, sep), sep, offset, h, i) == path[offset + i]
    ensures Level(Join(path, sep), sep, offset, h, h) == Join(path[offset + h..|path| - 1], " - ")
    ensures Datum(Join(path, sep), sep) == Last(path)
  {
    var s := Join(path, sep);
    SplitJoin(path, sep);
    assert Split(s, sep) == path;
    forall i | 0 <= i < h ensures Level(s, sep, offset, h, i) == path[offset + i] {
    }
  }
}
