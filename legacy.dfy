/** The older standalone engine: a traversal whose separator parameter only reaches the
    top level, pruning with a fixed `" & "`, and `xml_to_pandas_dataframe`, which loads
    a folder's `.xml` files and projects them with the fixed separator `"|"`, never
    dropping the overflow level. */
module Legacy {

  import opened Results
  import opened Text
  import opened Dicts
  import opened Traversal
  import opened Pruning
  import opened Projection
  import opened Converter

  /** The separator the legacy functions default to and the table builder always uses. */
  const Bar := "|"

  /** The concatenation symbol the legacy pruning always uses. */
  const Ampersand := " & "

  /** `traverse_node(nodes, separator)` as written: the recursive call passes no
      separator, so every joint below the top level is `"|"`. */
  function LegacyTraverse(nodes: seq<Node>, sep: string): (r: seq<string>)
    ensures |r| == LeafCount(nodes)
    decreases nodes
  {
    if |nodes| == 0 then []
    else LegacyTraverseOne(nodes[0], sep) + LegacyTraverse(nodes[1..], sep)
  }

  function LegacyTraverseOne(n: Node, sep: string): (r: seq<string>)
    ensures |r| == if IsLeaf(n) then 1 else LeafCount(n.children)
    decreases n
  {
    if !IsLeaf(n) then PrefixAll(n.tag + sep, LegacyTraverse(n.children, Bar))
    else [n.tag + sep + TextOf(n)]
  }

  /** With the default separator the legacy traversal is the class's traversal, and so
      emits one `"|"`-joined path per leaf. */
  lemma {:induction false} LegacyTraverseWithBar(nodes: seq<Node>)
    ensures LegacyTraverse(nodes, Bar) == Traverse(nodes, Bar)
    decreases nodes
  {
    if |nodes| > 0 {
      LegacyTraverseOneWithBar(nodes[0]);
      LegacyTraverseWithBar(nodes[1..]);
    }
  }

  lemma {:induction false} LegacyTraverseOneWithBar(n: Node)
    ensures LegacyTraverseOne(n, Bar) == TraverseOne(n, Bar)
    decreases n
  {
    if !IsLeaf(n) {
      LegacyTraverseWithBar(n.children);
    }
  }

  /** Below the top level the legacy traversal always joins with `"|"`: for any separator
      a top-level element's strings are its tag, the separator, and the class traversal
      of its children with `"|"`. */
  lemma {:induction false} LegacyTraverseBelowTop(n: Node, sep: string)
    requires !IsLeaf(n)
    ensures LegacyTraverseOne(n, sep) == PrefixAll(n.tag + sep, Traverse(n.children, Bar))
  {
    LegacyTraverseWithBar(n.children);
  }

  /** A separator other than `"|"` reaches only the first joint: `<a><b>x</b></a>` with
      `"#"` gives `"a#b|x"`, where the class traversal gives `"a#b#x"`. */
  lemma {:induction false} LegacySeparatorIgnoredBelowTop()
    ensures var nodes := [Node("a", None, [Node("b", Some("x"), [])])];
      LegacyTraverse(nodes, "#") == ["a#b|x"] && Traverse(nodes, "#") == ["a#b#x"]
  {
    var leaf := Node("b", Some("x"), []);
    var top := Node("a", None, [leaf]);
    assert [leaf][1..] == [] && [top][1..] == [];
    assert "b" + "|" + "x" == "b|x" && "b" + "#" + "x" == "b#x";
    assert LegacyTraverseOne(leaf, Bar) == ["b|x"];
    assert LegacyTraverse([leaf], Bar) == ["b|x"];
    assert TraverseOne(leaf, "#") == ["b#x"];
    assert Traverse([leaf], "#") == ["b#x"];
    assert "a" + "#" + "b|x" == "a#b|x" && "a" + "#" + "b#x" == "a#b#x";
    assert PrefixAll("a" + "#", ["b|x"]) == ["a#b|x"];
    assert PrefixAll("a" + "#", ["b#x"]) == ["a#b#x"];
    assert LegacyTraverseOne(top, "#") == ["a#b|x"];
    assert TraverseOne(top, "#") == ["a#b#x"];
  }

  /** `prune_equivalent_nodes(strings, separator)`: the class's pruning with the fixed
      `" & "`; an empty separator makes `str.split` raise `ValueError` on the first string. */
  method LegacyPruneEquivalentNodes(strings: seq<string>, sep: string) returns (r: Result<seq<string>, ConverterError>)
    ensures |sep| == 0 ==> (r.Failure? <==> |strings| > 0) && (r.Failure? ==> r.error == ValueError)
    ensures |sep| == 0 && r.Success? ==> r.value == []
    ensures |sep| > 0 ==> r == Success(Pruned(strings, sep, Ampersand))
  {
    if |strings| == 0 {
      return Success([]);
    }
    if |sep| == 0 {
      return Failure(ValueError);
    }
    var pruned := PruneEquivalentNodes(strings, sep, Ampersand);
    return Success(pruned);
  }

  /** Legacy pruning with the default separator never lengthens the list, and the
      branches of its entries are pairwise distinct. */
  lemma {:induction false} LegacyPrunedBranchesDistinct(strings: seq<string>)
    ensures |Pruned(strings, Bar, Ampersand)| <= |strings|
    ensures forall i, j :: 0 <= i < j < |Pruned(strings, Bar, Ampersand)| ==>
      Branch(Pruned(strings, Bar, Ampersand)[i], Bar) != Branch(Pruned(strings, Bar, Ampersand)[j], Bar)
  {
    assert !Contains(Ampersand, Bar) by {
      assert Ampersand[..1] == " " && Ampersand[1..] == "& ";
      assert "& "[..1] == "&" && "& "[1..] == " ";
      assert " "[..1] == " " && " "[1..] == "";
      assert !Contains("", Bar);
    }
    PrunedBranchesDistinct(strings, Bar, Ampersand);
  }

  /** A file of the folder: its name, whether it is a regular file, and its parsed tree. */
  datatype FileEntry = FileEntry(name: string, isFile: bool, tree: Node)

  /** Only regular files ending in `.xml` or `.XML` are loaded. */
  predicate IsXmlFile(f: FileEntry)
  {
    f.isFile && (EndsWith(f.name, ".xml") || EndsWith(f.name, ".XML"))
  }

  /** The legacy filter: only `""` keeps every string; any other value, the default
      `None` included, goes to `str.startswith`, which raises `TypeError` for `None` as
      soon as there is a string to test. */
  function LegacySelect(strings: seq<string>, startingWith: Option<string>): (r: Result<seq<string>, ConverterError>)
    ensures r.Failure? <==> startingWith.None? && |strings| > 0
    ensures r.Failure? ==> r.error == TypeError
    ensures r.Success? ==> forall x :: x in r.value <==> x in strings && (startingWith.None? || StartsWith(x, startingWith.value))
    ensures r.Success? ==>
      forall x :: multiset(r.value)[x] == if startingWith.None? || StartsWith(x, startingWith.value) then multiset(strings)[x] else 0
    ensures startingWith == Some("") ==> r == Success(strings)
    ensures startingWith.Some? ==> r == Success(Select(strings, startingWith))
  {
    if startingWith == Some("") then Success(strings)
    else if startingWith.None? then (if |strings| == 0 then Success([]) else Failure(TypeError))
    else Success(Select(strings, startingWith))
  }

  /** The `dataset` dictionary `xml_to_pandas_dataframe` builds from `files`, in listing
      order, or the error its filter raises. */
  function LegacyDataset(files: seq<FileEntry>, startingWith: Option<string>): (r: Result<Dict<string, seq<string>>, ConverterError>)
    ensures r.Failure? ==> r.error == TypeError
  {
    if |files| == 0 then Success([])
    else
      var f := files[|files| - 1];
      match LegacyDataset(files[..|files| - 1], startingWith)
      case Failure(e) => Failure(e)
      case Success(d) =>
        if !IsXmlFile(f) then Success(d)
        else
          match LegacySelect(Traverse(f.tree.children, Bar), startingWith)
          case Failure(e) => Failure(e)
          case Success(selected) => Success(Put(d, EntryName(f.name), Pruned(selected, Bar, Ampersand)))
  }

  /** The loop computing `psize`, over one document's strings. */
  method ScanMinCount(strings: seq<string>, ghost before: seq<nat>, psize0: Option<nat>) returns (psize: Option<nat>)
    requires psize0 == MinOf(before)
    ensures psize == MinOf(before + Counts(strings, Bar))
  {
    psize := psize0;
    assert before + Counts(strings[..0], Bar) == before;
    for j := 0 to |strings|
      invariant psize == MinOf(before + Counts(strings[..j], Bar))
    {
      var nlayers := Count(strings[j], Bar);
      CountsSnoc(before, strings, Bar, j);
      MinMaxSnoc(before + Counts(strings[..j], Bar), nlayers);
      psize := if psize.None? then Some(nlayers) else Some(if nlayers < psize.value then nlayers else psize.value);
    }
    assert strings[..|strings|] == strings;
  }

  /** `xml_to_pandas_dataframe(folderpath, offset, starting_with)` over the folder's
      listing: the dataset is loaded from the `.xml` files with `"|"` and `" & "`;
      `psize` is the least `"|"` count, and `None - offset` raises `TypeError`; an offset
      beyond it leaves the header list too short and raises `IndexError`; otherwise
      every document becomes a row with `psize - offset` plain levels and the overflow
      level, which is kept. */
  method XmlToPandasDataframe(files: seq<FileEntry>, offset: nat, startingWith: Option<string>)
    returns (r: Result<seq<Row>, ConverterError>)
    ensures LegacyDataset(files, startingWith).Failure? ==> r == Failure(TypeError)
    ensures LegacyDataset(files, startingWith).Success? ==>
      var d := LegacyDataset(files, startingWith).value;
      && (r == Failure(TypeError) <==> |AllCounts(d, Bar)| == 0)
      && (r == Failure(IndexError) <==> |AllCounts(d, Bar)| > 0 && offset > MinOf(AllCounts(d, Bar)).value)
      && (r.Success? <==> |AllCounts(d, Bar)| > 0 && offset <= MinOf(AllCounts(d, Bar)).value)
      && (r.Success? ==> AllProject(r.value, d, Bar, offset, MinOf(AllCounts(d, Bar)).value - offset, false))
  {
    var loaded := LoadLegacyDataset(files, startingWith);
    if loaded.Failure? {
      return Failure(TypeError);
    }
    var dataset := loaded.value;
    var psize := LeastCount(dataset);
    if psize.None? {
      return Failure(TypeError);
    }
    if offset > psize.value {
      return Failure(IndexError);
    }
    MinIsLowerBound(dataset, Bar);
    var rows := BuildRows(dataset, Bar, offset, psize.value - offset, false);
    return Success(rows);
  }

  /** The loading loop of `xml_to_pandas_dataframe` over the folder's listing. */
  method LoadLegacyDataset(files: seq<FileEntry>, startingWith: Option<string>)
    returns (r: Result<Dict<string, seq<string>>, ConverterError>)
    ensures r == LegacyDataset(files, startingWith)
  {
    var dataset: Dict<string, seq<string>> := [];
    for i := 0 to |files|
      invariant LegacyDataset(files[..i], startingWith) == Success(dataset)
    {
      assert files[..i + 1][..i] == files[..i];
      var file := files[i];
      if file.isFile && (EndsWith(file.name, ".xml") || EndsWith(file.name, ".XML")) {
        var name := Split(file.name, ".")[0];
        var strings := Traverse(file.tree.children, Bar);
        var selected := LegacySelect(strings, startingWith);
        if selected.Failure? {
          assert LegacyDataset(files[..i + 1], startingWith).Failure?;
          LegacyFailureSticks(files, startingWith, i + 1);
          return Failure(TypeError);
        }
        var pruned := PruneEquivalentNodes(selected.value, Bar, Ampersand);
        dataset := Put(dataset, name, pruned);
      }
    }
    assert files[..|files|] == files;
    return Success(dataset);
  }

  /** The loop computing `psize`, the least `"|"` count over all documents. */
  method LeastCount(dataset: Dict<string, seq<string>>) returns (psize: Option<nat>)
    ensures psize == MinOf(AllCounts(dataset, Bar))
  {
    psize := None;
    for k := 0 to |dataset|
      invariant psize == MinOf(AllCounts(dataset[..k], Bar))
    {
      psize := ScanMinCount(dataset[k].1, AllCounts(dataset[..k], Bar), psize);
      assert dataset[..k + 1][..k] == dataset[..k];
    }
    assert dataset[..|dataset|] == dataset;
  }

  /** Once the filter raises, the rest of the listing is never read. */
  lemma {:induction false} LegacyFailureSticks(files: seq<FileEntry>, startingWith: Option<string>, n: nat)
    requires n <= |files| && LegacyDataset(files[..n], startingWith).Failure?
    ensures LegacyDataset(files, startingWith) == Failure(TypeError)
    decreases |files| - n
  {
    if n < |files| {
      assert files[..n + 1][..n] == files[..n];
      LegacyFailureSticks(files, startingWith, n + 1);
    } else {
      assert files[..n] == files;
    }
  }

  /** Every document key comes from a loaded `.xml` file: its name up to the first `'.'`. */
  lemma {:induction false} LegacyKeysFromXmlFiles(files: seq<FileEntry>, startingWith: Option<string>)
    requires LegacyDataset(files, startingWith).Success?
    ensures var d := LegacyDataset(files, startingWith).value;
      Wellformed(d) && forall key :: HasKey(d, key) ==> FromXmlFile(key, files)
    decreases |files|
  {
    if |files| > 0 {
      var f := files[|files| - 1];
      var init := files[..|files| - 1];
      LegacyKeysFromXmlFiles(init, startingWith);
      var d0 := LegacyDataset(init, startingWith).value;
      var d := LegacyDataset(files, startingWith).value;
      var v := if IsXmlFile(f) then Pruned(LegacySelect(Traverse(f.tree.children, Bar), startingWith).value, Bar, Ampersand) else [];
      if IsXmlFile(f) {
        assert d == Put(d0, EntryName(f.name), v);
        PutSpec(d0, EntryName(f.name), v);
        PutKeys(d0, EntryName(f.name), v);
      }
      forall key | HasKey(d, key) ensures FromXmlFile(key, files) {
        if IsXmlFile(f) && key == EntryName(f.name) {
          assert files[|files| - 1] == f;
        } else {
          var i :| 0 <= i < |init| && IsXmlFile(init[i]) && EntryName(init[i].name) == key;
          assert files[i] == init[i];
        }
      }
    }
  }

  /** `key` is the entry name of an `.xml` file of the listing. */
  predicate FromXmlFile(key: string, files: seq<FileEntry>)
  {
    exists i :: 0 <= i < |files| && IsXmlFile(files[i]) && EntryName(files[i].name) == key
  }

  /** With the default `starting_with = None`, any `.xml` file with an element makes the
      filter raise `TypeError`. */
  lemma {:induction false} NoneFilterRaises(files: seq<FileEntry>, i: nat)
    requires i < |files| && IsXmlFile(files[i]) && |files[i].tree.children| > 0
    ensures LegacyDataset(files, None) == Failure(TypeError)
  {
    TraverseJoinsPaths(files[i].tree.children, Bar);
    LeafCountPositive(files[i].tree.children);
    if LegacyDataset(files[..i], None).Failure? {
      LegacyFailureSticks(files, None, i);
    } else {
      assert files[..i + 1][..i] == files[..i];
      assert files[..i + 1][i] == files[i];
      LegacyFailureSticks(files, None, i + 1);
    }
  }
}
