/**
  The older word-list conversion of the command-line tool. It recognises
  definition lines exactly as the renderer does, but parses derivatives to any
  depth: every entry, nested or not, has its own derivatives.
*/
module EwlLegacy {
  import opened Wrappers
  import Ewl

  /** A word with its definitions and its derivatives, at every depth. */
  datatype Entry = Entry(word: string, definitions: seq<Ewl.Definition>, derivatives: seq<Entry>)

  /** `parseEntry(node)`: the matching child lines are definitions, every other child line a derivative, parsed in turn. */
  function ParseEntry(node: Ewl.Node): (e: Entry)
    ensures e.word == node.value
    ensures |e.derivatives| == |Ewl.NonDefinitions(node.children)|
    ensures forall i :: 0 <= i < |e.derivatives| ==> e.derivatives[i].word == Ewl.NonDefinitions(node.children)[i].value
    decreases node
  {
    var derivatives := Ewl.NonDefinitions(node.children);
    Entry(node.value, Ewl.Definitions(node.children),
          seq(|derivatives|, i requires 0 <= i < |derivatives| =>
                assert derivatives[i] in derivatives; ParseEntry(derivatives[i])))
  }

  /** `parse`: one entry per top-level line of the tree, in order. */
  function Parse(tree: Ewl.Node): (entries: seq<Entry>)
    ensures |entries| == |tree.children|
    ensures forall i :: 0 <= i < |entries| ==> entries[i] == ParseEntry(tree.children[i])
  {
    seq(|tree.children|, i requires 0 <= i < |tree.children| => ParseEntry(tree.children[i]))
  }

  /**
    `e` accounts for the lines under `node` at every depth: its word is the
    node's line, each child line became a definition or a derivative, and each
    derivative accounts in the same way for the line it came from.
  */
  predicate Accounts(e: Entry, node: Ewl.Node)
    decreases e
  {
    var lines := Ewl.NonDefinitions(node.children);
    e.word == node.value &&
    |e.definitions| + |e.derivatives| == |node.children| &&
    |e.derivatives| == |lines| &&
    forall i :: 0 <= i < |e.derivatives| ==> Accounts(e.derivatives[i], lines[i])
  }

  /** No line is lost or invented at any depth of the recursion. */
  lemma {:induction false} ParseEntryAccounts(node: Ewl.Node)
    ensures Accounts(ParseEntry(node), node)
    decreases node
  {
    var lines := Ewl.NonDefinitions(node.children);
    Ewl.ChildrenSplit(node.children);
    forall i | 0 <= i < |lines|
      ensures Accounts(ParseEntry(node).derivatives[i], lines[i])
    {
      assert lines[i] in node.children;
      ParseEntryAccounts(lines[i]);
    }
  }

  /** An entry of the renderer's shape: the same entry cut after the first level of derivatives. */
  function Truncated(e: Entry): Ewl.Entry {
    Ewl.Entry(e.word, e.definitions,
              Some(seq(|e.derivatives|, i requires 0 <= i < |e.derivatives| =>
                     Ewl.Entry(e.derivatives[i].word, e.derivatives[i].definitions, None))))
  }

  /** The renderer's one-level parse is the older unbounded parse, cut after the first level. */
  lemma RendererParseIsTruncated(node: Ewl.Node)
    ensures Ewl.ParseEntry(node, true) == Truncated(ParseEntry(node))
  {
    var lines := Ewl.NonDefinitions(node.children);
    var shallow := Ewl.ParseEntry(node, true).derivatives.value;
    var cut := Truncated(ParseEntry(node)).derivatives.value;
    assert |shallow| == |cut| == |lines|;
    forall i | 0 <= i < |lines|
      ensures shallow[i] == cut[i]
    {
      assert shallow[i] == Ewl.ParseEntry(lines[i], false);
      Ewl.NestedEntryDropsDerivatives(lines[i]);
      var deep := ParseEntry(node).derivatives[i];
      assert deep == ParseEntry(lines[i]);
      assert cut[i] == Ewl.Entry(deep.word, deep.definitions, None);
    }
    assert shallow == cut;
    assert Ewl.ParseEntry(node, true) == Ewl.Entry(node.value, Ewl.Definitions(node.children), Some(shallow));
    assert Truncated(ParseEntry(node)) == Ewl.Entry(node.value, Ewl.Definitions(node.children), Some(cut));
  }
}
