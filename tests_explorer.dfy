/**
 * The "tests explorer" tree view (src/testsExplorerDataProvider.ts): the
 * top level lists the parsed root's children, and expanding an item lists
 * its own children, each named after its parent.
 */
module TestsExplorer {
  import Wrappers
  import opened ParsedTree
  import Constants
  import CodeLens

  /** `vscode.TreeItemCollapsibleState`. */
  datatype TreeItemCollapsibleState = None | Collapsed | Expanded

  /** A tree item for one parsed node (`Testable`); `itemLabel` is its `label`. */
  datatype Testable = Testable(
    testName: string,
    itemLabel: string,
    file: string,
    children: ChildList,
    collapsibleState: TreeItemCollapsibleState,
    tooltip: string,
    contextValue: string)

  /** `new Testable(...)`: the tooltip is the full test name, the context value fixed. */
  function NewTestable(testName: string, itemLabel: string, file: string, children: ChildList,
                       collapsibleState: TreeItemCollapsibleState): (t: Testable)
    ensures t.tooltip == t.testName && t.contextValue == "testable"
  {
    Testable(testName, itemLabel, file, children, collapsibleState, testName, "testable")
  }

  /** An `it` block is a leaf; every other node starts expanded. */
  function StateFor(kind: NodeType): (state: TreeItemCollapsibleState)
    ensures state == None <==> kind == It
    ensures state != Collapsed
  {
    if kind == It then None else Expanded
  }

  /** The item for one child: named after its parent when there is one. */
  function ChildItem(parentName: Wrappers.Option<string>, child: ParsedNode): (item: Testable)
    ensures item.itemLabel == child.name && item.file == child.file && item.children == child.children
    ensures child.kind == It ==> item.collapsibleState == None
    ensures child.kind != It ==> item.collapsibleState == Expanded
    ensures |item.testName| >= |child.name| && item.testName[|item.testName| - |child.name|..] == child.name
    ensures parentName.None? ==> item.testName == child.name
    ensures parentName.Some? ==>
      var parent := parentName.value;
      |item.testName| == |parent| + 1 + |child.name|
      && item.testName[..|parent|] == parent && item.testName[|parent|] == ' '
  {
    var testName := if parentName.Some? then parentName.value + " " + child.name else child.name;
    NewTestable(testName, child.name, child.file, child.children, StateFor(child.kind))
  }

  /** `children.map(...)`. */
  function ChildItems(parentName: Wrappers.Option<string>, nodes: seq<ParsedNode>): seq<Testable>
  {
    seq(|nodes|, i requires 0 <= i < |nodes| => ChildItem(parentName, nodes[i]))
  }

  /** What `getChildren` returns: `null` or a resolved list of items. */
  datatype ChildrenResult = Null | Resolved(items: seq<Testable>)

  /** The child list `getChildren` maps: the element's, or the parsed root's at the top level. */
  function SourceList(element: Wrappers.Option<Testable>, rootChildren: ChildList): ChildList
  {
    if element.Some? then element.value.children else rootChildren
  }

  /** The name the children are qualified with: the element's, or none at the top level. */
  function ParentName(element: Wrappers.Option<Testable>): Wrappers.Option<string>
  {
    if element.Some? then Wrappers.Some(element.value.testName) else Wrappers.None
  }

  /**
   * `getChildren`: `null` without an active editor or when the list to
   * show is absent (an empty list gives an empty result); otherwise one
   * item per child, in order, an `it` as a leaf, its name the parent's
   * name, a space and its own title (its title alone at the top level).
   */
  function GetChildren(hasEditor: bool, element: Wrappers.Option<Testable>, rootChildren: ChildList): (r: ChildrenResult)
    ensures !hasEditor ==> r == Null
    ensures hasEditor ==> (r.Null? <==> SourceList(element, rootChildren).Absent?)
    ensures r.Resolved? ==>
      var nodes := SourceList(element, rootChildren).nodes;
      |r.items| == |nodes|
      && forall i :: 0 <= i < |nodes| ==>
           r.items[i].itemLabel == nodes[i].name
           && r.items[i].file == nodes[i].file
           && r.items[i].children == nodes[i].children
           && r.items[i].collapsibleState == StateFor(nodes[i].kind)
           && r.items[i].testName == (if element.Some? then element.value.testName + " " + nodes[i].name
                                      else nodes[i].name)
  {
    if !hasEditor then Null
    else
      var list := SourceList(element, rootChildren);
      if list.Present? then Resolved(ChildItems(ParentName(element), list.nodes)) else Null
  }

  /**
   * The explorer names a child the way the code lenses do exactly when the
   * parent's name is not empty: under an empty name the explorer keeps a
   * leading space that the lens naming drops.
   */
  lemma NamesAgreeWithLenses(element: Testable, rootChildren: ChildList, i: nat)
    requires element.children.Present? && i < |element.children.nodes|
    ensures var r := GetChildren(true, Wrappers.Some(element), rootChildren);
      r.Resolved? && i < |r.items|
      && (r.items[i].testName == CodeLens.FullName(element.testName, element.children.nodes[i].name)
          <==> element.testName != "")
  {
    var child := element.children.nodes[i];
    var r := GetChildren(true, Wrappers.Some(element), rootChildren);
    if element.testName == "" {
      assert |r.items[i].testName| == |child.name| + 1;
    }
  }

  /** At the top level the explorer and the code lenses name a block alike. */
  lemma TopLevelNamesAgreeWithLenses(rootChildren: ChildList, i: nat)
    requires rootChildren.Present? && i < |rootChildren.nodes|
    ensures var r := GetChildren(true, Wrappers.None, rootChildren);
      r.Resolved? && i < |r.items|
      && r.items[i].testName == CodeLens.FullName("", rootChildren.nodes[i].name)
  {
  }

  /**
   * Expanding a top-level item lists the grandchildren under the
   * top-level title: item names follow the tree two levels down.
   */
  lemma ExpandTopLevelItem(rootChildren: ChildList, i: nat, j: nat)
    requires rootChildren.Present? && i < |rootChildren.nodes|
    requires rootChildren.nodes[i].children.Present? && j < |rootChildren.nodes[i].children.nodes|
    ensures var top := GetChildren(true, Wrappers.None, rootChildren);
      top.Resolved? && i < |top.items|
      && var below := GetChildren(true, Wrappers.Some(top.items[i]), rootChildren);
      below.Resolved? && j < |below.items|
      && below.items[j].testName
           == rootChildren.nodes[i].name + " " + rootChildren.nodes[i].children.nodes[j].name
  {
  }

  // ---------------------------------------------------------------------
  // onActiveEditorChanged
  // ---------------------------------------------------------------------

  /** The value read for the test-match-patterns setting. */
  datatype SettingValue = ArrayValue(items: seq<string>) | NonArray

  /**
   * The patterns a file is matched against: the setting when it is an
   * array, the default globs otherwise; empty only for an empty array.
   */
  function TestMatchPatterns(setting: SettingValue): (patterns: seq<string>)
    ensures setting.ArrayValue? ==> patterns == setting.items
    ensures setting.NonArray? ==> patterns == Constants.DefaultTestFilePatterns
    ensures patterns == [] <==> setting == ArrayValue([])
  {
    if setting.ArrayValue? then setting.items else Constants.DefaultTestFilePatterns
  }

  /** The active editor's document: its URI scheme and file-system path. */
  datatype Editor = Editor(scheme: string, fsPath: string)

  /** What a change of active editor does: the `jestRunItActive` context set (if at all), and whether the tree refreshes. */
  datatype EditorReaction = EditorReaction(setContext: Wrappers.Option<bool>, refresh: bool)

  /** The glob matcher, a parameter of the model. */
  type Matcher = (string, seq<string>) -> bool

  /**
   * `onActiveEditorChanged`: no editor clears the context; a file editor
   * sets it to whether the path matches the patterns and refreshes the
   * tree when it does; any other scheme changes nothing.
   */
  function OnActiveEditorChanged(editor: Wrappers.Option<Editor>, setting: SettingValue, isMatch: Matcher): (reaction: EditorReaction)
    ensures editor.None? ==> reaction == EditorReaction(Wrappers.Some(false), false)
    ensures editor.Some? && editor.value.scheme != "file" ==> reaction == EditorReaction(Wrappers.None, false)
    ensures editor.Some? && editor.value.scheme == "file" ==>
      reaction.setContext == Wrappers.Some(isMatch(editor.value.fsPath, TestMatchPatterns(setting)))
    ensures reaction.refresh <==> reaction.setContext == Wrappers.Some(true)
  {
    if editor.Some? then
      if editor.value.scheme == "file" then
        var jestRunItActive := isMatch(editor.value.fsPath, TestMatchPatterns(setting));
        EditorReaction(Wrappers.Some(jestRunItActive), jestRunItActive)
      else EditorReaction(Wrappers.None, false)
    else EditorReaction(Wrappers.Some(false), false)
  }
}
