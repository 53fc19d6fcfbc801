/** The `XML_converter` engine: it checks its input streams, loads every document as a
    pruned list of path-strings keyed by file name, measures the shallowest and deepest
    path, pads shorter paths with filler segments, and projects the dataset into table
    rows with a multi-level header. */
module Converter {

  import opened Results
  import opened Text
  import opened Dicts
  import opened Traversal
  import opened Pruning
  import opened Projection

  /** The exceptions the engine raises. */
  datatype ConverterError = ValueError | SeparatorError(separator: string) | TypeError | IndexError

  /** The constructor's default separator and concatenation symbol. */
  const DefaultSeparator := "#@#"
  const DefaultConcat := "|"

  /** With the default separator and symbol, the pruned entries' branches are pairwise
      distinct, each the branch of its first occurrence. */
  lemma {:induction false} DefaultsKeepBranchesDistinct(strings: seq<string>)
    ensures var out := Pruned(strings, DefaultSeparator, DefaultConcat);
      forall j, k :: 0 <= j < k < |out| ==> Branch(out[j], DefaultSeparator) != Branch(out[k], DefaultSeparator)
  {
    assert forall c :: c in DefaultSeparator ==> c !in DefaultConcat by {
      assert DefaultSeparator == ['#', '@', '#'] && DefaultConcat == ['|'];
    }
    PrunedBranchesDistinct(strings, DefaultSeparator, DefaultConcat);
  }

  /** An in-memory stream (`BytesIO`) holding one document: its decoded text, the element
      tree the XML parser builds from that text, and the read position. */
  class Stream {
    const data: string
    const tree: Node
    var pos: nat

    constructor (data: string, tree: Node)
      ensures this.data == data && this.tree == tree && pos == 0
    {
      this.data := data;
      this.tree := tree;
      pos := 0;
    }

    /** What `read()` returns from the current position. */
    function Unread(): string
      reads this
    {
      if pos < |data| then data[pos..] else ""
    }

    /** `read()`: the rest of the stream; the position moves to its end. */
    method Read() returns (text: string)
      modifies this
      ensures text == old(Unread())
      ensures pos == if old(pos) < |data| then |data| else old(pos)
    {
      text := Unread();
      if pos < |data| {
        pos := |data|;
      }
    }

    /** `seek(0)` */
    method Rewind()
      modifies this
      ensures pos == 0
    {
      pos := 0;
    }
  }

  function StreamsOf(ins: Dict<string, Stream>): set<Stream>
  {
    set i | 0 <= i < |ins| :: ins[i].1
  }

  /** No stream object appears under two file names. */
  predicate DistinctStreams(ins: Dict<string, Stream>)
  {
    forall i, j :: 0 <= i < j < |ins| ==> ins[i].1 != ins[j].1
  }

  /** Every string of every document holds the separator. */
  predicate HoldSeparator(d: Dict<string, seq<string>>, sep: string)
  {
    forall k, j :: 0 <= k < |d| && 0 <= j < |d[k].1| ==> Contains(d[k].1[j], sep)
  }

  /** Every string of every document is at least `n` deep. */
  predicate AtLeast(d: Dict<string, seq<string>>, sep: string, n: nat)
    requires |sep| > 0
  {
    forall k, j :: 0 <= k < |d| && 0 <= j < |d[k].1| ==> n <= Count(d[k].1[j], sep)
  }

  /** Every string of every document is exactly `n` deep. */
  predicate Uniform(d: Dict<string, seq<string>>, sep: string, n: nat)
    requires |sep| > 0
  {
    forall k, j :: 0 <= k < |d| && 0 <= j < |d[k].1| ==> Count(d[k].1[j], sep) == n
  }

  /** `rows` holds one projected row per document, in dataset order. */
  predicate AllProject(rows: seq<Row>, d: Dict<string, seq<string>>, sep: string, offset: nat, h: nat, drop: bool)
    requires |sep| > 0
  {
    && |rows| == |d|
    && forall k :: 0 <= k < |d| ==> DeepEnough(d[k].1, sep, offset, h) && Projects(rows[k], d[k].0, d[k].1, sep, offset, h, drop)
  }

  /** One iteration of the constructor's check: `stream.read()`, checked for the
      separator, and `stream.seek(0)` when it is absent. */
  method CheckStream(stream: Stream, separator: string) returns (clean: bool)
    modifies stream
    ensures clean <==> !Contains(old(stream.Unread()), separator)
    ensures clean ==> stream.pos == 0 && |separator| > 0
    ensures !clean ==> stream.pos == if old(stream.pos) < |stream.data| then |stream.data| else old(stream.pos)
  {
    var text := stream.Read();
    clean := !Contains(text, separator);
    if clean {
      stream.Rewind();
    }
  }

  /** `XML_converter(instream, separator, concat_symbol)`: anything but a non-empty
      dictionary (`None` here) and a concat symbol equal to the separator raise
      `ValueError`; then every stream is read, a stream whose text holds the separator
      raises `SeparatorError`, and every stream read without error is rewound. */
  method NewConverter(instream: Option<Dict<string, Stream>>, separator: string, concatSymbol: string)
    returns (r: Result<XmlConverter, ConverterError>)
    requires instream.Some? ==> DistinctStreams(instream.value)
    modifies if instream.Some? then StreamsOf(instream.value) else {}
    ensures instream.None? || |instream.value| == 0 ==> r == Failure(ValueError)
    ensures instream.Some? && |instream.value| > 0 && concatSymbol == separator ==> r == Failure(ValueError)
    ensures instream.Some? && |instream.value| > 0 && concatSymbol != separator ==>
      var ins := instream.value;
      && (r.Success? <==> forall i :: 0 <= i < |ins| ==> !Contains(old(ins[i].1.Unread()), separator))
      && (r.Success? ==> forall i :: 0 <= i < |ins| ==> ins[i].1.pos == 0)
      && (r.Failure? ==>
            && r.error == SeparatorError(separator)
            && exists f :: 0 <= f < |ins| && Contains(old(ins[f].1.Unread()), separator)
                 && (forall i :: 0 <= i < f ==> !Contains(old(ins[i].1.Unread()), separator) && ins[i].1.pos == 0)
                 && ins[f].1.pos == (if old(ins[f].1.pos) < |ins[f].1.data| then |ins[f].1.data| else old(ins[f].1.pos))
                 && (forall i :: f < i < |ins| ==> ins[i].1.pos == old(ins[i].1.pos)))
    ensures r.Success? ==>
      && fresh(r.value) && r.value.Valid() && r.value.dataset == []
      && instream == Some(r.value.instream) && r.value.separator == separator && r.value.concatSymbol == concatSymbol
  {
    if instream.None? || |instream.value| == 0 {
      return Failure(ValueError);
    }
    if concatSymbol == separator {
      return Failure(ValueError);
    }
    var ins := instream.value;
    var i := 0;
    while i < |ins|
      invariant i <= |ins|
      invariant forall k :: 0 <= k < i ==> !Contains(old(ins[k].1.Unread()), separator) && ins[k].1.pos == 0
      invariant forall k :: i <= k < |ins| ==> ins[k].1.pos == old(ins[k].1.pos)
      invariant i > 0 ==> |separator| > 0
    {
      var clean := CheckStream(ins[i].1, separator);
      if !clean {
        return Failure(SeparatorError(separator));
      }
      i := i + 1;
    }
    var c := new XmlConverter(ins, separator, concatSymbol);
    return Success(c);
  }

  /** `filename.split(".")[0]` */
  function EntryName(filename: string): string
  {
    Split(filename, ".")[0]
  }

  /** The `starting_with` filter of `load`: `None` and the empty string keep every
      string, any other prefix keeps the strings that start with it. */
  predicate Keeps(startingWith: Option<string>, s: string)
  {
    startingWith.None? || startingWith.value == "" || StartsWith(s, startingWith.value)
  }

  /** `[item for item in strings if item.startswith(starting_with)]`, or every string:
      each kept string as often as it occurs, in order (`SelectAppend`). */
  function Select(strings: seq<string>, startingWith: Option<string>): (r: seq<string>)
    ensures |r| <= |strings|
    ensures forall x :: x in r ==> x in strings && Keeps(startingWith, x)
    ensures forall x :: x in strings && Keeps(startingWith, x) ==> x in r
    ensures forall x :: multiset(r)[x] == if Keeps(startingWith, x) then multiset(strings)[x] else 0
    ensures (forall x :: x in strings ==> Keeps(startingWith, x)) ==> r == strings
  {
    if |strings| == 0 then []
    else
      var last := strings[|strings| - 1];
      var init := strings[..|strings| - 1];
      assert strings == init + [last];
      Select(init, startingWith) + if Keeps(startingWith, last) then [last] else []
  }

  /** The filter works string by string and keeps the order: filtering a concatenation
      is the concatenation of the filtered parts. */
  lemma {:induction false} SelectAppend(a: seq<string>, b: seq<string>, startingWith: Option<string>)
    ensures Select(a + b, startingWith) == Select(a, startingWith) + Select(b, startingWith)
    decreases |b|
  {
    if |b| == 0 {
      assert a + b == a;
    } else {
      var init, last := b[..|b| - 1], b[|b| - 1];
      assert a + b == (a + init) + [last] && b == init + [last];
      SelectSnoc(a + init, last, startingWith);
      SelectSnoc(init, last, startingWith);
      SelectAppend(a, init, startingWith);
      AppendAssociative(Select(a, startingWith), Select(init, startingWith), Select([last], startingWith));
    }
  }

  /** Filtering one more string appends it exactly when the filter keeps it. */
  lemma {:induction false} SelectSnoc(xs: seq<string>, x: string, startingWith: Option<string>)
    ensures Select(xs + [x], startingWith) == Select(xs, startingWith) + Select([x], startingWith)
    ensures Select([x], startingWith) == if Keeps(startingWith, x) then [x] else []
  {
    assert (xs + [x])[..|xs|] == xs;
    assert [x][..0] == [];
  }

  /** The list `load` stores for one document: its top-level elements' path-strings,
      filtered, then pruned. */
  function DocumentStrings(tree: Node, sep: string, concat: string, startingWith: Option<string>): seq<string>
    requires |sep| > 0
  {
    Pruned(Select(Traverse(tree.children, sep), startingWith), sep, concat)
  }

  /** `self.dataset[entry_name] = stringlist` for one file. */
  function Store(d: Dict<string, seq<string>>, file: (string, Stream), sep: string, concat: string,
                 startingWith: Option<string>): Dict<string, seq<string>>
    requires |sep| > 0
  {
    Put(d, EntryName(file.0), DocumentStrings(file.1.tree, sep, concat, startingWith))
  }

  /** The dataset after `load` has visited `files` in order, starting from `d`: each file's
      list is stored under its entry name, replacing the list of an earlier file with
      the same entry name in place. */
  function LoadAll(d: Dict<string, seq<string>>, files: Dict<string, Stream>, sep: string, concat: string,
                   startingWith: Option<string>): (r: Dict<string, seq<string>>)
    requires |sep| > 0
    ensures forall key :: HasKey(r, key) <==> HasKey(d, key) || Named(files, key)
  {
    if |files| == 0 then d
    else
      var init, last := files[..|files| - 1], files[|files| - 1];
      var before := LoadAll(d, init, sep, concat, startingWith);
      PutKeys(before, EntryName(last.0), DocumentStrings(last.1.tree, sep, concat, startingWith));
      NamedSnoc(files);
      Store(before, last, sep, concat, startingWith)
  }

  /** `key` is the entry name of one of the files. */
  predicate Named(files: Dict<string, Stream>, key: string)
  {
    exists i :: 0 <= i < |files| && EntryName(files[i].0) == key
  }

  lemma {:induction false} NamedSnoc(files: Dict<string, Stream>)
    requires |files| > 0
    ensures forall key :: Named(files, key) <==> Named(files[..|files| - 1], key) || EntryName(files[|files| - 1].0) == key
  {
    var init := files[..|files| - 1];
    forall key | Named(files, key) ensures Named(init, key) || EntryName(files[|files| - 1].0) == key {
      var i :| 0 <= i < |files| && EntryName(files[i].0) == key;
      if i < |files| - 1 { assert init[i] == files[i]; }
    }
    forall key | Named(init, key) ensures Named(files, key) {
      var i :| 0 <= i < |init| && EntryName(init[i].0) == key;
      assert files[i] == init[i];
    }
  }

  /** The separator counts of a list of strings, in order. */
  function Counts(strings: seq<string>, sep: string): (cs: seq<nat>)
    requires |sep| > 0
    ensures |cs| == |strings|
    ensures forall j :: 0 <= j < |strings| ==> cs[j] == Count(strings[j], sep)
  {
    if |strings| == 0 then [] else Counts(strings[..|strings| - 1], sep) + [Count(strings[|strings| - 1], sep)]
  }

  /** The separator counts of every string of every document, in dataset order. */
  function AllCounts(d: Dict<string, seq<string>>, sep: string): seq<nat>
    requires |sep| > 0
  {
    if |d| == 0 then [] else AllCounts(d[..|d| - 1], sep) + Counts(d[|d| - 1].1, sep)
  }

  /** The running minimum `lmin = n if lmin == None else min(lmin, n)`. */
  function MinOf(xs: seq<nat>): (r: Option<nat>)
    ensures r.None? <==> |xs| == 0
    ensures r.Some? ==> r.value in xs && forall x :: x in xs ==> r.value <= x
  {
    if |xs| == 0 then None
    else
      var last := xs[|xs| - 1];
      assert xs == xs[..|xs| - 1] + [last];
      match MinOf(xs[..|xs| - 1])
      case None => Some(last)
      case Some(m) => Some(if last < m then last else m)
  }

  /** The running maximum `lmax = n if lmax == None else max(lmax, n)`. */
  function MaxOf(xs: seq<nat>): (r: Option<nat>)
    ensures r.None? <==> |xs| == 0
    ensures r.Some? ==> r.value in xs && forall x :: x in xs ==> x <= r.value
  {
    if |xs| == 0 then None
    else
      var last := xs[|xs| - 1];
      assert xs == xs[..|xs| - 1] + [last];
      match MaxOf(xs[..|xs| - 1])
      case None => Some(last)
      case Some(m) => Some(if last > m then last else m)
  }

  /** The depth `inflate_tree` pads to: the deepest count, or nothing to pad. */
  function Deepest(d: Dict<string, seq<string>>, sep: string): nat
    requires |sep| > 0
  {
    match MaxOf(AllCounts(d, sep))
    case None => 0
    case Some(m) => m
  }

  /** The number of fillers `inflate_tree` inserts: `len(range(lmax - len(fields) + 1))`. */
  function FillerCount(top: nat, fields: nat): nat
  {
    if top + 1 > fields then top + 1 - fields else 0
  }

  /** One string after `inflate_tree`: unchanged when it has `top + 1` fields, otherwise
      its branch, the fillers and its value, joined with the separator. */
  function InflateString(s: string, sep: string, filler: string, top: nat): (r: string)
    requires |sep| > 0
    ensures Contains(s, sep) ==> Contains(r, sep)
  {
    var fields := Split(s, sep);
    if |fields| == top + 1 then s
    else
      var front := Join(AllButLast(fields), sep) + sep + Join(Repeat(filler, FillerCount(top, |fields|)), sep);
      ContainsAfter(front, sep, Last(fields));
      front + sep + Last(fields)
  }

  function InflateList(strings: seq<string>, sep: string, filler: string, top: nat): (r: seq<string>)
    requires |sep| > 0
    ensures |r| == |strings|
    ensures forall j :: 0 <= j < |strings| ==> r[j] == InflateString(strings[j], sep, filler, top)
  {
    if |strings| == 0 then []
    else InflateList(strings[..|strings| - 1], sep, filler, top) + [InflateString(strings[|strings| - 1], sep, filler, top)]
  }

  /** The dataset `inflate_tree` builds: the same document keys, in the same order, each
      with its inflated list. */
  function InflateAll(d: Dict<string, seq<string>>, sep: string, filler: string, top: nat): (r: Dict<string, seq<string>>)
    requires |sep| > 0
    ensures |r| == |d|
    ensures forall k :: 0 <= k < |d| ==> r[k] == (d[k].0, InflateList(d[k].1, sep, filler, top))
  {
    if |d| == 0 then []
    else InflateAll(d[..|d| - 1], sep, filler, top) + [(d[|d| - 1].0, InflateList(d[|d| - 1].1, sep, filler, top))]
  }

  /** The inner loop of `get_branch_limits`: folds the separator counts of one document's
      strings into the running minimum and maximum of the counts seen before. */
  method ScanCounts(strings: seq<string>, sep: string, ghost before: seq<nat>, lmin0: Option<nat>, lmax0: Option<nat>)
    returns (lmin: Option<nat>, lmax: Option<nat>)
    requires |sep| > 0 && lmin0 == MinOf(before) && lmax0 == MaxOf(before)
    ensures lmin == MinOf(before + Counts(strings, sep)) && lmax == MaxOf(before + Counts(strings, sep))
  {
    lmin, lmax := lmin0, lmax0;
    assert before + Counts(strings[..0], sep) == before;
    for j := 0 to |strings|
      invariant lmin == MinOf(before + Counts(strings[..j], sep))
      invariant lmax == MaxOf(before + Counts(strings[..j], sep))
    {
      var nlayers := Count(strings[j], sep);
      CountsSnoc(before, strings, sep, j);
      MinMaxSnoc(before + Counts(strings[..j], sep), nlayers);
      lmin := if lmin.None? then Some(nlayers) else Some(if nlayers < lmin.value then nlayers else lmin.value);
      lmax := if lmax.None? then Some(nlayers) else Some(if nlayers > lmax.value then nlayers else lmax.value);
    }
    assert strings[..|strings|] == strings;
  }

  /** The counts of one more string extend the counts by that string's count. */
  lemma {:induction false} CountsSnoc(before: seq<nat>, strings: seq<string>, sep: string, j: nat)
    requires |sep| > 0 && j < |strings|
    ensures before + Counts(strings[..j + 1], sep) == (before + Counts(strings[..j], sep)) + [Count(strings[j], sep)]
  {
    var p := strings[..j + 1];
    assert p[..|p| - 1] == strings[..j] && p[|p| - 1] == strings[j];
    assert Counts(p, sep) == Counts(strings[..j], sep) + [Count(strings[j], sep)];
  }

  lemma {:induction false} MinMaxSnoc(xs: seq<nat>, x: nat)
    ensures MinOf(xs + [x]) == if MinOf(xs).None? then Some(x) else Some(if x < MinOf(xs).value then x else MinOf(xs).value)
    ensures MaxOf(xs + [x]) == if MaxOf(xs).None? then Some(x) else Some(if x > MaxOf(xs).value then x else MaxOf(xs).value)
  {
    assert (xs + [x])[..|xs|] == xs;
  }

  /** The limits loop of `get_branch_limits` over a dataset. */
  method BranchLimits(d: Dict<string, seq<string>>, sep: string) returns (lmin: Option<nat>, lmax: Option<nat>)
    requires |sep| > 0
    ensures lmin == MinOf(AllCounts(d, sep))
    ensures lmax == MaxOf(AllCounts(d, sep))
  {
    lmin, lmax := None, None;
    for k := 0 to |d|
      invariant lmin == MinOf(AllCounts(d[..k], sep))
      invariant lmax == MaxOf(AllCounts(d[..k], sep))
    {
      lmin, lmax := ScanCounts(d[k].1, sep, AllCounts(d[..k], sep), lmin, lmax);
      assert d[..k + 1][..k] == d[..k];
    }
    assert d[..|d|] == d;
  }

  /** `get_pandas_dataset(offset)` over a dataset: `None - offset` raises `TypeError`
      when there is no string at all; an offset beyond the least count leaves the header
      list too short and raises `IndexError`; when `offset`, the least and the greatest
      count all agree, deleting the overflow level leaves no header at all, and the
      table constructor rejects a document's values against zero columns with
      `ValueError`; otherwise every document becomes a row with `lmin - offset` plain
      levels, and the overflow level is dropped exactly when the least and the greatest
      count agree. */
  method PandasDataset(d: Dict<string, seq<string>>, sep: string, offset: nat) returns (r: Result<seq<Row>, ConverterError>)
    requires |sep| > 0
    ensures r == Failure(TypeError) <==> |AllCounts(d, sep)| == 0
    ensures r == Failure(IndexError) <==> |AllCounts(d, sep)| > 0 && offset > MinOf(AllCounts(d, sep)).value
    ensures r == Failure(ValueError) <==>
      |AllCounts(d, sep)| > 0 && offset == MinOf(AllCounts(d, sep)).value == MaxOf(AllCounts(d, sep)).value
    ensures r.Success? <==>
      && |AllCounts(d, sep)| > 0 && offset <= MinOf(AllCounts(d, sep)).value
      && !(offset == MinOf(AllCounts(d, sep)).value == MaxOf(AllCounts(d, sep)).value)
    ensures r.Success? ==>
      var lmin, lmax := MinOf(AllCounts(d, sep)).value, MaxOf(AllCounts(d, sep)).value;
      AllProject(r.value, d, sep, offset, lmin - offset, lmin == lmax)
  {
    var lmin, lmax := BranchLimits(d, sep);
    if lmin.None? {
      return Failure(TypeError);
    }
    if offset > lmin.value {
      return Failure(IndexError);
    }
    if offset == lmin.value == lmax.value {
      return Failure(ValueError);
    }
    var rows := ProjectAll(d, sep, offset, lmin.value, lmax.value);
    return Success(rows);
  }

  /** The success path of `get_pandas_dataset`: `lmin - offset` plain levels, the overflow
      level dropped exactly when `lmin == lmax`. */
  method ProjectAll(d: Dict<string, seq<string>>, sep: string, offset: nat, lmin: nat, lmax: nat) returns (rows: seq<Row>)
    requires |sep| > 0 && |AllCounts(d, sep)| > 0
    requires lmin == MinOf(AllCounts(d, sep)).value && offset <= lmin
    ensures AllProject(rows, d, sep, offset, lmin - offset, lmin == lmax)
  {
    MinIsLowerBound(d, sep);
    rows := BuildRows(d, sep, offset, lmin - offset, lmin == lmax);
  }

  /** The outer loop of `inflate_tree`: every document's list inflated, under the same
      entry name. */
  method InflateDataset(d: Dict<string, seq<string>>, sep: string, filler: string, top: nat)
    returns (inflated: Dict<string, seq<string>>)
    requires |sep| > 0 && Wellformed(d)
    ensures inflated == InflateAll(d, sep, filler, top)
  {
    inflated := [];
    for k := 0 to |d|
      invariant inflated == InflateAll(d[..k], sep, filler, top)
    {
      var (entryName, strings) := d[k];
      var list := InflateStrings(strings, sep, filler, top);
      assert !HasKey(inflated, entryName);
      inflated := Put(inflated, entryName, list);
      assert d[..k + 1][..k] == d[..k];
    }
    assert d[..|d|] == d;
  }

  /** The inner loop of `inflate_tree` over one document's strings. */
  method InflateStrings(strings: seq<string>, sep: string, filler: string, top: nat) returns (list: seq<string>)
    requires |sep| > 0
    ensures list == InflateList(strings, sep, filler, top)
  {
    list := [];
    for j := 0 to |strings|
      invariant list == InflateList(strings[..j], sep, filler, top)
    {
      var fields := Split(strings[j], sep);
      if |fields| == top + 1 {
        list := list + [strings[j]];
      } else {
        var current := Join(AllButLast(fields), sep);
        current := current + sep;
        current := current + Join(Repeat(filler, FillerCount(top, |fields|)), sep);
        current := current + sep + Last(fields);
        list := list + [current];
      }
      assert strings[..j + 1][..j] == strings[..j];
    }
    assert strings[..|strings|] == strings;
  }

  /** The loop of `get_pandas_dataset` over the documents: one projected row each. */
  method BuildRows(d: Dict<string, seq<string>>, sep: string, offset: nat, h: nat, drop: bool) returns (rows: seq<Row>)
    requires |sep| > 0
    requires AtLeast(d, sep, offset + h)
    ensures AllProject(rows, d, sep, offset, h, drop)
  {
    rows := [];
    for k := 0 to |d|
      invariant |rows| == k
      invariant forall k' :: 0 <= k' < k ==> DeepEnough(d[k'].1, sep, offset, h) && Projects(rows[k'], d[k'].0, d[k'].1, sep, offset, h, drop)
    {
      var row := BuildRow(d[k].0, d[k].1, sep, offset, h, drop);
      rows := rows + [row];
    }
  }

  class XmlConverter {
    const instream: Dict<string, Stream>
    const separator: string
    const concatSymbol: string
    var dataset: Dict<string, seq<string>>

    /** A converter that passed the constructor's checks: the separator is not empty (the
        empty string occurs in every stream's text), and every stored string holds it. */
    ghost predicate Valid()
      reads this
    {
      |separator| > 0 && Wellformed(dataset) && HoldSeparator(dataset, separator)
    }

    constructor (instream: Dict<string, Stream>, separator: string, concatSymbol: string)
      requires |separator| > 0
      ensures Valid() && dataset == []
      ensures this.instream == instream && this.separator == separator && this.concatSymbol == concatSymbol
    {
      this.instream := instream;
      this.separator := separator;
      this.concatSymbol := concatSymbol;
      dataset := [];
    }

    /** `load(starting_with)`: every document, in stream order, is traversed from its
        root's children, filtered, pruned, and stored under its entry name. */
    method Load(startingWith: Option<string>)
      requires Valid()
      modifies this
      ensures Valid()
      ensures dataset == LoadAll(old(dataset), instream, separator, concatSymbol, startingWith)
    {
      for i := 0 to |instream|
        invariant Valid()
        invariant dataset == LoadAll(old(dataset), instream[..i], separator, concatSymbol, startingWith)
      {
        var (filename, stream) := instream[i];
        var entryName := Split(filename, ".")[0];
        var strings := Traverse(stream.tree.children, separator);
        var selected := Select(strings, startingWith);
        var pruned := PruneEquivalentNodes(selected, separator, concatSymbol);
        StoreValid(dataset, instream[i], separator, concatSymbol, startingWith);
        dataset := Put(dataset, entryName, pruned);
        assert instream[..i + 1][..i] == instream[..i];
      }
      assert instream[..|instream|] == instream;
    }

    /** `get_branch_limits()`: the least and the greatest separator count over every
        string of every document, or `(None, None)` when there is no string. */
    method GetBranchLimits() returns (lmin: Option<nat>, lmax: Option<nat>)
      requires Valid()
      ensures lmin == MinOf(AllCounts(dataset, separator))
      ensures lmax == MaxOf(AllCounts(dataset, separator))
    {
      lmin, lmax := BranchLimits(dataset, separator);
    }

    /** `inflate_tree(filler)`: a filler holding the separator raises `ValueError`;
        otherwise every string is padded with fillers up to the deepest count. */
    method InflateTree(filler: string) returns (r: Result<(), ConverterError>)
      requires Valid()
      modifies this
      ensures Valid()
      ensures Contains(filler, separator) ==> r == Failure(ValueError) && dataset == old(dataset)
      ensures !Contains(filler, separator) ==>
        r == Success(()) && dataset == InflateAll(old(dataset), separator, filler, Deepest(old(dataset), separator))
    {
      if Contains(filler, separator) {
        return Failure(ValueError);
      }
      var _, lmax := GetBranchLimits();
      var top := if lmax.Some? then lmax.value else 0;
      var inflated := InflateDataset(dataset, separator, filler, top);
      InflateAllValid(dataset, separator, filler, top);
      dataset := inflated;
      r := Success(());
    }

    /** `get_pandas_dataset(offset)`: with `lmin` the shallowest count and `h = lmin -
        offset`, one row per document whose header has `h` plain levels and the overflow
        level, the latter dropped exactly when `lmin == lmax`. No string at all leaves
        `lmin` at `None`, and `None - offset` raises `TypeError`; an offset beyond `lmin`
        leaves the header list too short for level `h` and raises `IndexError`; with
        `offset == lmin == lmax` no header level is left and the table constructor raises
        `ValueError`. */
    method GetPandasDataset(offset: nat) returns (r: Result<seq<Row>, ConverterError>)
      requires Valid()
      ensures r == Failure(TypeError) <==> |AllCounts(dataset, separator)| == 0
      ensures r == Failure(IndexError) <==>
        |AllCounts(dataset, separator)| > 0 && offset > MinOf(AllCounts(dataset, separator)).value
      ensures r == Failure(ValueError) <==>
        && |AllCounts(dataset, separator)| > 0
        && offset == MinOf(AllCounts(dataset, separator)).value == MaxOf(AllCounts(dataset, separator)).value
      ensures r.Success? <==>
        && |AllCounts(dataset, separator)| > 0 && offset <= MinOf(AllCounts(dataset, separator)).value
        && !(offset == MinOf(AllCounts(dataset, separator)).value == MaxOf(AllCounts(dataset, separator)).value)
      ensures r.Success? ==>
        var lmin, lmax := MinOf(AllCounts(dataset, separator)).value, MaxOf(AllCounts(dataset, separator)).value;
        AllProject(r.value, dataset, separator, offset, lmin - offset, lmin == lmax)
    {
      r := PandasDataset(dataset, separator, offset);
      if r.Success? {
        ghost var lmin, lmax := MinOf(AllCounts(dataset, separator)).value, MaxOf(AllCounts(dataset, separator)).value;
        assert AllProject(r.value, dataset, separator, offset, lmin - offset, lmin == lmax);
      }
    }
  }

  /** Storing one file keeps the dataset well formed and its strings holding the separator. */
  lemma {:induction false} StoreValid(d: Dict<string, seq<string>>, file: (string, Stream), sep: string, concat: string,
                   startingWith: Option<string>)
    requires |sep| > 0 && Wellformed(d) && HoldSeparator(d, sep)
    ensures Wellformed(Store(d, file, sep, concat, startingWith))
    ensures HoldSeparator(Store(d, file, sep, concat, startingWith), sep)
  {
    var key, v := EntryName(file.0), DocumentStrings(file.1.tree, sep, concat, startingWith);
    DocumentHoldsSeparator(file.1.tree, sep, concat, startingWith);
    PutSpec(d, key, v);
    var r := Put(d, key, v);
    var at := if HasKey(d, key) then IndexOf(d, key) else |d|;
    assert r == if HasKey(d, key) then d[at := (key, v)] else d + [(key, v)];
    forall k | 0 <= k < |r| ensures r[k].1 == v || (k < |d| && r[k] == d[k]) {
      if k != at {
        assert r[k] == d[k];
      }
    }
    forall k, j | 0 <= k < |r| && 0 <= j < |r[k].1| ensures Contains(r[k].1[j], sep) {
      if r[k].1 != v {
        assert r[k] == d[k];
      }
    }
  }

  /** Every string `load` stores for one document holds the separator. */
  lemma {:induction false} DocumentHoldsSeparator(tree: Node, sep: string, concat: string, startingWith: Option<string>)
    requires |sep| > 0
    ensures forall j :: 0 <= j < |DocumentStrings(tree, sep, concat, startingWith)| ==>
      Contains(DocumentStrings(tree, sep, concat, startingWith)[j], sep)
  {
    var strings := Traverse(tree.children, sep);
    TraverseHasSeparator(tree.children, sep);
    var selected := Select(strings, startingWith);
    forall i | 0 <= i < |selected| ensures Contains(selected[i], sep) {
      assert selected[i] in strings;
    }
    PrunedHoldSeparator(selected, sep, concat);
  }

  /** Every separator count is the count of some stored string. */
  lemma {:induction false} AllCountsWitness(d: Dict<string, seq<string>>, sep: string, c: nat) returns (k: nat, j: nat)
    requires |sep| > 0 && c in AllCounts(d, sep)
    ensures k < |d| && j < |d[k].1| && Count(d[k].1[j], sep) == c
    decreases |d|
  {
    var init := d[..|d| - 1];
    var last := d[|d| - 1].1;
    if c in AllCounts(init, sep) {
      k, j := AllCountsWitness(init, sep, c);
      assert init[k] == d[k];
    } else {
      var i :| |AllCounts(init, sep)| <= i < |AllCounts(d, sep)| && AllCounts(d, sep)[i] == c;
      k, j := |d| - 1, i - |AllCounts(init, sep)|;
    }
  }

  /** The count of every stored string is among the counts. */
  lemma {:induction false} AllCountsHas(d: Dict<string, seq<string>>, sep: string, k: nat, j: nat)
    requires |sep| > 0 && k < |d| && j < |d[k].1|
    ensures Count(d[k].1[j], sep) in AllCounts(d, sep)
    decreases |d|
  {
    if k < |d| - 1 {
      AllCountsHas(d[..|d| - 1], sep, k, j);
    } else {
      assert AllCounts(d, sep)[|AllCounts(d[..|d| - 1], sep)| + j] == Counts(d[k].1, sep)[j];
    }
  }

  /** Inflation keeps the dataset well formed and every string holding the separator. */
  lemma {:induction false} InflateAllValid(d: Dict<string, seq<string>>, sep: string, filler: string, top: nat)
    requires |sep| > 0 && Wellformed(d) && HoldSeparator(d, sep)
    ensures Wellformed(InflateAll(d, sep, filler, top)) && HoldSeparator(InflateAll(d, sep, filler, top), sep)
  {
    var r := InflateAll(d, sep, filler, top);
    forall k, j | 0 <= k < |r| && 0 <= j < |r[k].1| ensures Contains(r[k].1[j], sep) {
    }
  }

  /** The entry name of `name.ext` is `name` when `name` holds no dot. */
  lemma {:induction false} EntryNameOf(name: string, ext: string)
    requires !Contains(name, ".")
    ensures EntryName(name + "." + ext) == name
  {
    FreeOneChar(name, ".");
    SplitFreeHead(name, ext, ".");
  }

  /** `load` keeps the dataset a dictionary: one list per entry name. */
  lemma {:induction false} LoadAllWellformed(d: Dict<string, seq<string>>, files: Dict<string, Stream>, sep: string,
                                             concat: string, startingWith: Option<string>)
    requires |sep| > 0 && Wellformed(d)
    ensures Wellformed(LoadAll(d, files, sep, concat, startingWith))
    decreases |files|
  {
    if |files| > 0 {
      var f := files[|files| - 1];
      LoadAllWellformed(d, files[..|files| - 1], sep, concat, startingWith);
      PutSpec(LoadAll(d, files[..|files| - 1], sep, concat, startingWith), EntryName(f.0),
              DocumentStrings(f.1.tree, sep, concat, startingWith));
    }
  }

  /** An entry name no file maps to keeps its old list. */
  lemma {:induction false} LoadAllUntouched(d: Dict<string, seq<string>>, files: Dict<string, Stream>, sep: string,
                                            concat: string, startingWith: Option<string>, key: string)
    requires |sep| > 0 && Wellformed(d)
    requires forall i :: 0 <= i < |files| ==> EntryName(files[i].0) != key
    ensures Get(LoadAll(d, files, sep, concat, startingWith), key) == Get(d, key)
    decreases |files|
  {
    if |files| > 0 {
      var f := files[|files| - 1];
      LoadAllUntouched(d, files[..|files| - 1], sep, concat, startingWith, key);
      LoadAllWellformed(d, files[..|files| - 1], sep, concat, startingWith);
      PutSpec(LoadAll(d, files[..|files| - 1], sep, concat, startingWith), EntryName(f.0),
              DocumentStrings(f.1.tree, sep, concat, startingWith));
    }
  }

  /** Of several files with the same entry name, the last one's list is the one stored. */
  lemma {:induction false} LoadAllLastWins(d: Dict<string, seq<string>>, files: Dict<string, Stream>, sep: string,
                                           concat: string, startingWith: Option<string>, i: nat)
    requires |sep| > 0 && Wellformed(d) && i < |files|
    requires forall i' :: i < i' < |files| ==> EntryName(files[i'].0) != EntryName(files[i].0)
    ensures Get(LoadAll(d, files, sep, concat, startingWith), EntryName(files[i].0))
         == Some(DocumentStrings(files[i].1.tree, sep, concat, startingWith))
    decreases |files|
  {
    var f := files[|files| - 1];
    var init := files[..|files| - 1];
    LoadAllWellformed(d, init, sep, concat, startingWith);
    PutSpec(LoadAll(d, init, sep, concat, startingWith), EntryName(f.0), DocumentStrings(f.1.tree, sep, concat, startingWith));
    if i < |files| - 1 {
      assert init[i] == files[i];
      LoadAllLastWins(d, init, sep, concat, startingWith, i);
    }
  }

  /** A prefix filter is not a filter on the first tag: `"a"` keeps a branch under `ab`. */
  lemma {:induction false} PrefixFilterKeepsLongerTags()
    ensures Select(["ab|x", "b|y"], Some("a")) == ["ab|x"]
  {
    assert Keeps(Some("a"), "ab|x");
    assert !Keeps(Some("a"), "b|y") by {
      assert "b|y"[..1] == "b";
    }
    assert ["ab|x", "b|y"][..1] == ["ab|x"];
  }

  /** A string already at the deepest count is left alone by inflation. */
  lemma {:induction false} InflateKeepsDeepest(s: string, sep: string, filler: string, top: nat)
    requires |sep| > 0 && Count(s, sep) == top
    ensures InflateString(s, sep, filler, top) == s
  {
    SplitCount(s, sep);
  }

  /** Inflating a string that holds the separator to depth `top`, with a filler that can
      stand between separators, keeps its branch and its value and puts `top - depth`
      fillers between them: the result is exactly `top` deep. */
  lemma {:induction false} InflateStringShape(s: string, sep: string, filler: string, top: nat)
    requires |sep| > 0 && Free(filler, sep) && Contains(s, sep) && Count(s, sep) <= top
    ensures var fields := Split(s, sep);
      Split(InflateString(s, sep, filler, top), sep) == AllButLast(fields) + Repeat(filler, top - Count(s, sep)) + [Last(fields)]
    ensures Count(InflateString(s, sep, filler, top), sep) == top
  {
    var fields := Split(s, sep);
    SplitCount(s, sep);
    ContainsCount(s, sep);
    SplitShape(s, sep);
    var n := top - Count(s, sep);
    var segs := AllButLast(fields) + Repeat(filler, n) + [Last(fields)];
    if n == 0 {
      assert segs == fields;
      JoinSplit(s, sep);
      SplitJoin(fields, sep);
    } else {
      assert FillerCount(top, |fields|) == n;
      assert AllButLast(segs) == AllButLast(fields) + Repeat(filler, n);
      assert AllFree(AllButLast(segs), sep) by {
        forall i | 0 <= i < |AllButLast(segs)| ensures Free(AllButLast(segs)[i], sep) {
          if i >= |AllButLast(fields)| {
            assert AllButLast(segs)[i] == Repeat(filler, n)[i - |AllButLast(fields)|];
          }
        }
      }
      JoinAppend(AllButLast(fields), Repeat(filler, n), sep);
      JoinAppend(AllButLast(fields) + Repeat(filler, n), [Last(fields)], sep);
      assert Join(segs, sep) == InflateString(s, sep, filler, top);
      SplitJoin(segs, sep);
    }
  }

  /** After `inflate_tree` with a filler free of the separator, every string of every
      document is exactly as deep as the deepest string was. */
  lemma {:induction false} InflateUniformDepth(d: Dict<string, seq<string>>, sep: string, filler: string)
    requires |sep| > 0 && HoldSeparator(d, sep) && Free(filler, sep)
    ensures Uniform(InflateAll(d, sep, filler, Deepest(d, sep)), sep, Deepest(d, sep))
  {
    var top := Deepest(d, sep);
    var e := InflateAll(d, sep, filler, top);
    forall k, j | 0 <= k < |e| && 0 <= j < |e[k].1| ensures Count(e[k].1[j], sep) == top {
      AllCountsHas(d, sep, k, j);
      InflateStringShape(d[k].1[j], sep, filler, top);
    }
  }

  /** When every string is equally deep the branch limits agree. */
  lemma {:induction false} UniformLimits(d: Dict<string, seq<string>>, sep: string, top: nat)
    requires |sep| > 0
    requires Uniform(d, sep, top)
    ensures MinOf(AllCounts(d, sep)) == MaxOf(AllCounts(d, sep))
    ensures |AllCounts(d, sep)| > 0 ==> MinOf(AllCounts(d, sep)) == Some(top)
  {
    var all := AllCounts(d, sep);
    if |all| > 0 {
      var k, j := AllCountsWitness(d, sep, MinOf(all).value);
      var k', j' := AllCountsWitness(d, sep, MaxOf(all).value);
    }
  }

  /** After `inflate_tree`, `get_pandas_dataset` sees `lmin == lmax` and so drops the
      overflow level of the header. */
  lemma {:induction false} InflatedLimitsAgree(d: Dict<string, seq<string>>, sep: string, filler: string)
    requires |sep| > 0 && HoldSeparator(d, sep) && Free(filler, sep)
    ensures var e := InflateAll(d, sep, filler, Deepest(d, sep));
      MinOf(AllCounts(e, sep)) == MaxOf(AllCounts(e, sep))
  {
    var e := InflateAll(d, sep, filler, Deepest(d, sep));
    InflateUniformDepth(d, sep, filler);
    UniformLimits(e, sep, Deepest(d, sep));
  }

  /** The shallowest count bounds every string from below. */
  lemma {:induction false} MinIsLowerBound(d: Dict<string, seq<string>>, sep: string)
    requires |sep| > 0 && |AllCounts(d, sep)| > 0
    ensures AtLeast(d, sep, MinOf(AllCounts(d, sep)).value)
  {
    forall k, j | 0 <= k < |d| && 0 <= j < |d[k].1| ensures MinOf(AllCounts(d, sep)).value <= Count(d[k].1[j], sep) {
      AllCountsHas(d, sep, k, j);
    }
  }
}
