/**
  Conversion of a parsed word-list tree into dictionary entries, as the
  renderer does it. Each top-level line is a word; its child lines are either
  definitions, recognised by `definitionExp`, or derivative words. Derivatives
  are parsed one level deep: their own non-definition children are dropped.

  The indented-text parser that builds the tree is not part of this model;
  its nodes are taken to have a `value` line and ordered `children`.
*/
module Ewl {
  import opened Wrappers

  /** A line of the word list and the lines indented under it. */
  datatype Node = Node(value: string, children: seq<Node>)

  /** A definition line split into its part-of-speech tag and the rest. */
  datatype Definition = Definition(partOfSpeech: string, definition: string)

  /** A word with its definitions and, for the entries that carry the field, its derivatives. */
  datatype Entry = Entry(word: string, definitions: seq<Definition>, derivatives: Option<seq<Entry>>)

  // ---------------------------------------------------------------- definitionExp

  /** The alternatives of the tag group of `definitionExp`, in order. */
  const Tags: seq<string> := ["n", "v", "adj", "adv", "conj", "prep"]

  /** `\s`: the white space and line terminator characters of ECMAScript. */
  predicate IsSpace(c: char) {
    c == '\t' || c == '\n' || c == '\U{000B}' || c == '\U{000C}' || c == '\r' || c == ' ' ||
    c == '\U{00A0}' || c == '\U{1680}' || ('\U{2000}' <= c <= '\U{200A}') ||
    c == '\U{2028}' || c == '\U{2029}' || c == '\U{202F}' || c == '\U{205F}' || c == '\U{3000}' || c == '\U{FEFF}'
  }

  /** The line terminators, which `.` does not match. */
  predicate IsLineTerminator(c: char) {
    c == '\n' || c == '\r' || c == '\U{2028}' || c == '\U{2029}'
  }

  predicate AllSpaces(s: string) {
    forall i :: 0 <= i < |s| ==> IsSpace(s[i])
  }

  predicate NoLineTerminator(s: string) {
    forall i :: 0 <= i < |s| ==> !IsLineTerminator(s[i])
  }

  /**
    The language of `^(n|v|adj|adv|conj|prep)\s+(.+)$`: `line` is a tag, then
    one or more white space characters, then at least one character that is not
    a line terminator, and nothing after.
  */
  predicate DefinitionShape(line: string, tag: string, spaces: string, rest: string) {
    line == tag + spaces + rest && tag in Tags &&
    |spaces| >= 1 && AllSpaces(spaces) && |rest| >= 1 && NoLineTerminator(rest)
  }

  /** The number of white space characters `s` starts with. */
  function LeadingSpaces(s: string): (n: nat)
    ensures n <= |s| && AllSpaces(s[..n]) && (n < |s| ==> !IsSpace(s[n]))
  {
    if s == [] || !IsSpace(s[0]) then 0 else 1 + LeadingSpaces(s[1..])
  }

  /** The tag `line` starts with, trying the alternatives in order. */
  function TagOf(line: string): (r: Option<string>)
    ensures r.Some? ==> r.value in Tags && r.value <= line
  {
    if "n" <= line then Some("n")
    else if "v" <= line then Some("v")
    else if "adj" <= line then Some("adj")
    else if "adv" <= line then Some("adv")
    else if "conj" <= line then Some("conj")
    else if "prep" <= line then Some("prep")
    else None
  }

  /**
    `definitionExp.exec(line)`: the tag and the second group. The `\s+` is greedy;
    when only white space follows the tag it gives back its last character to `.+`.
  */
  function MatchDefinition(line: string): (r: Option<Definition>)
    ensures r.Some? ==> r.value.partOfSpeech in Tags && r.value.partOfSpeech <= line
    ensures r.Some? ==> |r.value.definition| >= 1 && NoLineTerminator(r.value.definition)
  {
    match TagOf(line)
    case None => None
    case Some(tag) => MatchAfterTag(tag, line[|tag|..])
  }

  /** The part of the match after the tag: `\s+(.+)$` on `tail`. */
  function MatchAfterTag(tag: string, tail: string): (r: Option<Definition>)
    ensures r.Some? ==> r.value.partOfSpeech == tag && |r.value.definition| >= 1 && NoLineTerminator(r.value.definition)
  {
    var w := LeadingSpaces(tail);
    if w == 0 then None
    else if w < |tail| then
      if NoLineTerminator(tail[w..]) then Some(Definition(tag, tail[w..])) else None
    else if w >= 2 && !IsLineTerminator(tail[w - 1]) then Some(Definition(tag, tail[w - 1..]))
    else None
  }

  /** No tag is a prefix of another, so a line starts with at most one of them. */
  lemma TagOfFindsTag(line: string, tag: string)
    requires tag in Tags && tag <= line
    ensures TagOf(line) == Some(tag)
  {
    assert line[0] == tag[0];
    if tag == "adv" {
      assert line[2] == 'v';
    } else if tag == "adj" {
      assert line[2] == 'j';
    }
  }

  /** After the tag, a match is white space followed by the second group. */
  lemma MatchAfterTagSound(tag: string, tail: string)
    requires MatchAfterTag(tag, tail).Some?
    ensures var d := MatchAfterTag(tag, tail).value;
            d.partOfSpeech == tag && |d.definition| < |tail| &&
            tail == tail[..|tail| - |d.definition|] + d.definition &&
            AllSpaces(tail[..|tail| - |d.definition|]) && |d.definition| >= 1 && NoLineTerminator(d.definition)
  {
    var w := LeadingSpaces(tail);
    var k := if w < |tail| then w else w - 1;
    assert tail[..k] == tail[..w][..k];
    assert tail == tail[..k] + tail[k..];
  }

  /** A line that starts with `p` is `p`, then the next `k` characters, then the rest. */
  lemma SplitAfterPrefix(line: string, p: string, k: nat)
    requires p <= line && k <= |line| - |p|
    ensures line == p + line[|p|..|p| + k] + line[|p| + k..]
  {
  }

  /** A match splits the line as the expression does, with the tag as part of speech. */
  lemma MatchDefinitionSound(line: string)
    requires MatchDefinition(line).Some?
    ensures var d := MatchDefinition(line).value;
            |d.partOfSpeech| + |d.definition| < |line| &&
            DefinitionShape(line, d.partOfSpeech, line[|d.partOfSpeech|..|line| - |d.definition|], d.definition)
  {
    var tag := TagOf(line).value;
    assert MatchDefinition(line) == MatchAfterTag(tag, line[|tag|..]);
    ShapeAfterTag(line, tag);
  }

  /** A line starting with a tag and matched after it has the expression's shape. */
  lemma ShapeAfterTag(line: string, tag: string)
    requires tag in Tags && tag <= line && MatchAfterTag(tag, line[|tag|..]).Some?
    ensures var d := MatchAfterTag(tag, line[|tag|..]).value;
            |tag| + |d.definition| < |line| &&
            DefinitionShape(line, tag, line[|tag|..|line| - |d.definition|], d.definition)
  {
    var tail := line[|tag|..];
    MatchAfterTagSound(tag, tail);
    var d := MatchAfterTag(tag, tail).value;
    var k := |tail| - |d.definition|;
    SplitAfterPrefix(line, tag, k);
    assert |tag| + k == |line| - |d.definition|;
    assert line[|tag|..|tag| + k] == tail[..k];
    assert line[|tag| + k..] == d.definition;
  }

  /** Every line of the expression's shape is matched, with its tag as part of speech. */
  lemma MatchDefinitionComplete(line: string, tag: string, spaces: string, rest: string)
    requires DefinitionShape(line, tag, spaces, rest)
    ensures MatchDefinition(line).Some? && MatchDefinition(line).value.partOfSpeech == tag
  {
    TagOfFindsTag(line, tag);
    assert line[|tag|..] == spaces + rest;
    MatchAfterSpaces(tag, spaces, rest);
  }

  /** White space followed by at least one character and no line terminator is matched after the tag. */
  lemma MatchAfterSpaces(tag: string, spaces: string, rest: string)
    requires |spaces| >= 1 && AllSpaces(spaces) && |rest| >= 1 && NoLineTerminator(rest)
    ensures MatchAfterTag(tag, spaces + rest).Some? && MatchAfterTag(tag, spaces + rest).value.partOfSpeech == tag
  {
    var tail := spaces + rest;
    assert tail[..|spaces|] == spaces;
    var w := LeadingSpaces(tail);
    LeadingSpacesCover(tail, |spaces|);
    if w < |tail| {
      assert tail[w..] == rest[w - |spaces|..];
    } else {
      assert tail[w - 1] == rest[|rest| - 1];
    }
  }

  /** White space at the front of `s` is all counted by `LeadingSpaces`. */
  lemma {:induction false} LeadingSpacesCover(s: string, k: nat)
    requires k <= |s| && AllSpaces(s[..k])
    ensures LeadingSpaces(s) >= k
  {
    if k > 0 {
      assert s[1..][..k - 1] == s[..k][1..];
      LeadingSpacesCover(s[1..], k - 1);
    }
  }

  // ---------------------------------------------------------------- parseEntry

  /*
    The split of the child lines is stated for any matcher `m`, so that the
    facts about order and counts do not depend on the regular expression;
    `parseEntry` uses it with `MatchDefinition`.
  */

  /** The results of `m` on the child lines that it matches, in order. */
  function DefinitionsBy(children: seq<Node>, m: string -> Option<Definition>): seq<Definition> {
    if children == [] then []
    else
      (match m(children[0].value) case Some(d) => [d] case None => []) +
      DefinitionsBy(children[1..], m)
  }

  /** The child lines that `m` does not match, in order. */
  function NonDefinitionsBy(children: seq<Node>, m: string -> Option<Definition>): (r: seq<Node>)
    ensures forall c :: c in r ==> c in children
  {
    if children == [] then []
    else
      (if m(children[0].value).None? then [children[0]] else []) +
      NonDefinitionsBy(children[1..], m)
  }

  lemma {:induction false} ChildrenSplitBy(children: seq<Node>, m: string -> Option<Definition>)
    ensures |DefinitionsBy(children, m)| + |NonDefinitionsBy(children, m)| == |children|
  {
    if children != [] {
      ChildrenSplitBy(children[1..], m);
    }
  }

  lemma {:induction false} AppendBy(a: seq<Node>, b: seq<Node>, m: string -> Option<Definition>)
    ensures DefinitionsBy(a + b, m) == DefinitionsBy(a, m) + DefinitionsBy(b, m)
    ensures NonDefinitionsBy(a + b, m) == NonDefinitionsBy(a, m) + NonDefinitionsBy(b, m)
  {
    if a != [] {
      assert (a + b)[0] == a[0];
      assert (a + b)[1..] == a[1..] + b;
      AppendBy(a[1..], b, m);
      var head := match m(a[0].value) case Some(d) => [d] case None => [];
      assert DefinitionsBy(a + b, m) == head + DefinitionsBy(a[1..] + b, m);
      assert DefinitionsBy(a, m) == head + DefinitionsBy(a[1..], m);
      var rest := if m(a[0].value).None? then [a[0]] else [];
      assert NonDefinitionsBy(a + b, m) == rest + NonDefinitionsBy(a[1..] + b, m);
      assert NonDefinitionsBy(a, m) == rest + NonDefinitionsBy(a[1..], m);
    } else {
      assert a + b == b;
    }
  }

  lemma {:induction false} DefinitionsByFromLines(children: seq<Node>, m: string -> Option<Definition>, d: Definition)
    requires d in DefinitionsBy(children, m)
    ensures exists i :: 0 <= i < |children| && m(children[i].value) == Some(d)
  {
    if m(children[0].value) != Some(d) {
      DefinitionsByFromLines(children[1..], m, d);
      var i :| 0 <= i < |children[1..]| && m(children[1..][i].value) == Some(d);
      assert children[i + 1] == children[1..][i];
    }
  }

  /** The definitions of the child lines that match, in order. */
  function Definitions(children: seq<Node>): seq<Definition> {
    DefinitionsBy(children, MatchDefinition)
  }

  /** The child lines that do not match, in order: the derivatives. */
  function NonDefinitions(children: seq<Node>): (r: seq<Node>)
    ensures forall c :: c in r ==> c in children
  {
    NonDefinitionsBy(children, MatchDefinition)
  }

  /** Every child is either a definition or a derivative. */
  lemma ChildrenSplit(children: seq<Node>)
    ensures |Definitions(children)| + |NonDefinitions(children)| == |children|
  {
    ChildrenSplitBy(children, MatchDefinition);
  }

  /** Definitions and derivatives follow the order of the lines: those of two runs of lines are those of the first, then those of the second. */
  lemma DefinitionsAppend(a: seq<Node>, b: seq<Node>)
    ensures Definitions(a + b) == Definitions(a) + Definitions(b)
    ensures NonDefinitions(a + b) == NonDefinitions(a) + NonDefinitions(b)
  {
    AppendBy(a, b, MatchDefinition);
  }

  /** Every definition is the match of one of the child lines, and so carries one of the tags as its part of speech. */
  lemma DefinitionsFromLines(children: seq<Node>, d: Definition)
    requires d in Definitions(children)
    ensures exists i :: 0 <= i < |children| && MatchDefinition(children[i].value) == Some(d)
    ensures d.partOfSpeech in Tags
  {
    DefinitionsByFromLines(children, MatchDefinition, d);
    var i :| 0 <= i < |children| && MatchDefinition(children[i].value) == Some(d);
    MatchDefinitionSound(children[i].value);
  }

  /** `parseEntry(node, parseDerivative)`. */
  function ParseEntry(node: Node, parseDerivative: bool): (e: Entry)
    ensures e.word == node.value
    ensures e.derivatives.Some? <==> parseDerivative
    ensures e.derivatives.Some? ==> |e.derivatives.value| == |NonDefinitions(node.children)|
    ensures e.derivatives.Some? ==> forall d :: d in e.derivatives.value ==> d.derivatives.None?
    decreases node
  {
    var derivatives := NonDefinitions(node.children);
    Entry(node.value, Definitions(node.children),
          if parseDerivative
          then Some(seq(|derivatives|, i requires 0 <= i < |derivatives| =>
                      assert derivatives[i] in derivatives; ParseEntry(derivatives[i], false)))
          else None)
  }

  /**
    A top-level entry has the `derivatives` field, one derivative per non-matching
    child with the child's line as its word, and its definitions and derivatives
    together account for every child. A derivative has no `derivatives` field.
  */
  lemma ParseEntryShape(node: Node)
    ensures var e := ParseEntry(node, true);
            && e.word == node.value
            && e.derivatives.Some?
            && |e.definitions| + |e.derivatives.value| == |node.children|
            && (forall i :: 0 <= i < |e.derivatives.value| ==>
                  e.derivatives.value[i].word == NonDefinitions(node.children)[i].value &&
                  e.derivatives.value[i].derivatives.None?)
  {
    ChildrenSplit(node.children);
  }

  /** Inside a derivative the non-matching lines are dropped. */
  lemma NestedEntryDropsDerivatives(node: Node)
    ensures ParseEntry(node, false) == Entry(node.value, Definitions(node.children), None)
  {
  }

  /** `parse`: one entry per top-level line of the tree, in order. */
  function Parse(tree: Node): (entries: seq<Entry>)
    ensures |entries| == |tree.children|
    ensures forall i :: 0 <= i < |entries| ==> entries[i] == ParseEntry(tree.children[i], true)
  {
    seq(|tree.children|, i requires 0 <= i < |tree.children| => ParseEntry(tree.children[i], true))
  }
}
