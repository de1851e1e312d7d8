/**
 * The code-lens provider (src/jestDoItCodeLensProvider.ts): for every
 * `describe` and `it` block of a test file, a run lens and a debug lens
 * (and an update-snapshots lens when a snapshot matcher lies inside the
 * block) at the block's start, labelled by the configured titles.
 */
module CodeLens {
  import opened ParsedTree

  /** A 0-based editor position (`vscode.Position`). */
  datatype Position = Position(line: int, character: int)

  /** An editor range (`vscode.Range`). */
  datatype Range = Range(start: Position, end: Position)

  /** An editor command attached to a lens (`vscode.Command`). */
  datatype Command = Command(command: string, title: string, arguments: seq<string>, tooltip: string)

  /** A code lens: where it is shown and what it runs. */
  datatype CodeLens = CodeLens(range: Range, command: Command)

  /** The three label settings; "" stands for an unset label. */
  datatype Labels = Labels(runTestLabel: string, debugTestLabel: string, updateSnapshotsLabel: string)

  /** Default titles: a running man, a bug, a thumbs-up. */
  const RunEmoji: string := "\U{1F3C3}\U{200D}\U{2642}\U{FE0F}"
  const DebugEmoji: string := "\U{1F41E}"
  const UpdateSnapshotsEmoji: string := "\U{1F44D}"

  /** `setting ? setting : fallback`: never empty, the setting when it is set. */
  function Title(setting: string, fallback: string): (title: string)
    requires fallback != ""
    ensures title != ""
    ensures setting != "" ==> title == setting
    ensures setting == "" ==> title == fallback
  {
    if setting != "" then setting else fallback
  }

  /** The run command for a test: its file and full name as arguments. */
  function RunCommand(labels: Labels, file: string, name: string): (c: Command)
    ensures c.command == "jestRunItCodeLens.runTest" && c.tooltip == "Run test"
    ensures c.arguments == [file, name]
    ensures c.title != "" && (labels.runTestLabel != "" ==> c.title == labels.runTestLabel)
    ensures labels.runTestLabel == "" ==> c.title == RunEmoji
  {
    Command("jestRunItCodeLens.runTest", Title(labels.runTestLabel, RunEmoji), [file, name], "Run test")
  }

  /** The debug command for a test: its file and full name as arguments. */
  function DebugCommand(labels: Labels, file: string, name: string): (c: Command)
    ensures c.command == "jestRunItCodeLens.debugTest" && c.tooltip == "Debug test"
    ensures c.arguments == [file, name]
    ensures c.title != "" && (labels.debugTestLabel != "" ==> c.title == labels.debugTestLabel)
    ensures labels.debugTestLabel == "" ==> c.title == DebugEmoji
  {
    Command("jestRunItCodeLens.debugTest", Title(labels.debugTestLabel, DebugEmoji), [file, name], "Debug test")
  }

  /** The update-snapshots command for a test: its file and full name as arguments. */
  function UpdateSnapshotsCommand(labels: Labels, file: string, name: string): (c: Command)
    ensures c.command == "jestRunItCodeLens.updateSnapshots" && c.tooltip == "Update snapshots"
    ensures c.arguments == [file, name]
    ensures c.title != "" && (labels.updateSnapshotsLabel != "" ==> c.title == labels.updateSnapshotsLabel)
    ensures labels.updateSnapshotsLabel == "" ==> c.title == UpdateSnapshotsEmoji
  {
    Command("jestRunItCodeLens.updateSnapshots", Title(labels.updateSnapshotsLabel, UpdateSnapshotsEmoji),
            [file, name], "Update snapshots")
  }

  /** The empty range at a 0-based position. */
  function EmptyRangeAt(line: int, character: int): Range
  {
    Range(Position(line, character), Position(line, character))
  }

  /**
   * The lenses for one test block at the parser's 1-based (line, column):
   * run then debug, then update-snapshots if asked for, all on the empty
   * range one line and one column earlier, all with the same arguments.
   */
  function CreateLensAt(labels: Labels, startLine: int, startCol: int, file: string, name: string,
                        includeSnapshotCodeLens: bool): (lenses: seq<CodeLens>)
    ensures |lenses| == if includeSnapshotCodeLens then 3 else 2
    ensures forall l :: l in lenses ==>
      l.range == EmptyRangeAt(startLine - 1, startCol - 1) && l.command.arguments == [file, name]
    ensures lenses[0].command == RunCommand(labels, file, name)
    ensures lenses[1].command == DebugCommand(labels, file, name)
    ensures includeSnapshotCodeLens ==> lenses[2].command == UpdateSnapshotsCommand(labels, file, name)
  {
    var commentLine := EmptyRangeAt(startLine - 1, startCol - 1);
    var runCodeLens := CodeLens(commentLine, RunCommand(labels, file, name));
    var debugCodeLens := CodeLens(commentLine, DebugCommand(labels, file, name));
    if includeSnapshotCodeLens then
      [runCodeLens, debugCodeLens, CodeLens(commentLine, UpdateSnapshotsCommand(labels, file, name))]
    else
      [runCodeLens, debugCodeLens]
  }

  // ---------------------------------------------------------------------
  // hasSnapshots
  // ---------------------------------------------------------------------

  /** The span a snapshot matcher must lie in (`ISnapshotRange`). */
  datatype SnapshotRange = SnapshotRange(start: Location, end: Location)

  /** The span of a parsed node. */
  function RangeOf(node: ParsedNode): SnapshotRange
  {
    SnapshotRange(node.start, node.end)
  }

  /** `a` is at or before `b`, comparing lines first and then columns. */
  predicate AtOrBefore(a: Location, b: Location)
  {
    a.line < b.line || (a.line == b.line && a.column <= b.column)
  }

  /** The snapshot call lies within the range, both bounds included. */
  predicate Encloses(range: SnapshotRange, metadata: SnapshotMetadata)
  {
    AtOrBefore(range.start, metadata.start) && AtOrBefore(metadata.end, range.end)
  }

  /** Some snapshot call of the list lies within the range. */
  predicate AnyEnclosed(range: SnapshotRange, metadataList: seq<SnapshotMetadata>)
  {
    exists i :: 0 <= i < |metadataList| && Encloses(range, metadataList[i])
  }

  /**
   * `hasSnapshots`: a scan that stops at the first snapshot call lying
   * within the range; true exactly when there is one, so false for an
   * empty list.
   */
  method HasSnapshots(range: SnapshotRange, metadataList: seq<SnapshotMetadata>) returns (found: bool)
    ensures found <==> AnyEnclosed(range, metadataList)
    ensures metadataList == [] ==> !found
  {
    var i := 0;
    while i < |metadataList|
      invariant 0 <= i <= |metadataList|
      invariant forall j :: 0 <= j < i ==> !Encloses(range, metadataList[j])
    {
      var metadata := metadataList[i];
      var isLargerOrEqualToStart :=
        metadata.start.line > range.start.line
        || (metadata.start.line == range.start.line && metadata.start.column >= range.start.column);
      var isSmallerOrEqualToEnd :=
        metadata.end.line < range.end.line
        || (metadata.end.line == range.end.line && metadata.end.column <= range.end.column);
      if isLargerOrEqualToStart && isSmallerOrEqualToEnd {
        return true;
      }
      i := i + 1;
    }
    return false;
  }

  /**
   * Containment is inclusive at both ends: a snapshot call spanning
   * exactly the range counts, and so does one sharing only a bound.
   */
  lemma BoundsAreInclusive(range: SnapshotRange, metadata: SnapshotMetadata)
    requires metadata.start == range.start && AtOrBefore(metadata.end, range.end)
    ensures Encloses(range, metadata)
    ensures Encloses(range, SnapshotMetadata(range.start, range.end))
  {
  }

  /**
   * A snapshot call inside an inner range is inside every range that
   * encloses it: a block that shows the update lens makes every
   * enclosing block show it too.
   */
  lemma SnapshotsPropagateOutward(outer: SnapshotRange, inner: SnapshotRange, metadataList: seq<SnapshotMetadata>)
    requires AtOrBefore(outer.start, inner.start) && AtOrBefore(inner.end, outer.end)
    requires AnyEnclosed(inner, metadataList)
    ensures AnyEnclosed(outer, metadataList)
  {
    var i :| 0 <= i < |metadataList| && Encloses(inner, metadataList[i]);
    assert Encloses(outer, metadataList[i]);
  }

  // ---------------------------------------------------------------------
  // genCodeLens
  // ---------------------------------------------------------------------

  /** The blocks `genCodeLens` makes lenses for. */
  predicate IsTestBlock(node: ParsedNode)
  {
    node.kind == Describe || node.kind == It
  }

  /** What goes before a block's title: the parent's full name and a space, if any. */
  function Qualifier(prefix: string): string
  {
    if prefix != "" then prefix + " " else ""
  }

  /** A block's full name: the prefix, a space and its title, or the title alone. */
  function FullName(prefix: string, name: string): (full: string)
    ensures prefix == "" ==> full == name
    ensures prefix != "" ==>
      |full| == |prefix| + 1 + |name| && full[..|prefix|] == prefix && full[|prefix|] == ' '
    ensures |full| >= |name| && full[|full| - |name|..] == name
  {
    Qualifier(prefix) + name
  }

  /**
   * The lenses `genCodeLens` appends for a node: for a test block, its
   * own lenses followed by those of its children (pre-order), the
   * children named under the block's full name; nothing for any other
   * node, whose children are not visited.
   */
  function NodeLenses(labels: Labels, node: ParsedNode, prefix: string, metadata: seq<SnapshotMetadata>): (lenses: seq<CodeLens>)
    ensures IsTestBlock(node) ==>
      |lenses| >= 2
      && lenses[0].range == lenses[1].range == EmptyRangeAt(node.start.line - 1, node.start.column - 1)
      && lenses[0].command.arguments == lenses[1].command.arguments == [node.file, FullName(prefix, node.name)]
    decreases node, 1, 0
  {
    if IsTestBlock(node) then
      var name := FullName(prefix, node.name);
      CreateLensAt(labels, node.start.line, node.start.column, node.file, name, AnyEnclosed(RangeOf(node), metadata))
      + ChildrenLenses(labels, node, |Children(node)|, name, metadata)
    else []
  }

  /** The lenses of the first `i` children of `parent`, in order, under the prefix. */
  function ChildrenLenses(labels: Labels, parent: ParsedNode, i: nat, prefix: string, metadata: seq<SnapshotMetadata>): seq<CodeLens>
    requires i <= |Children(parent)|
    decreases parent, 0, i
  {
    if i == 0 then []
    else
      ChildIsSmaller(parent, i - 1);
      ChildrenLenses(labels, parent, i - 1, prefix, metadata)
         + NodeLenses(labels, Children(parent)[i - 1], prefix, metadata)
  }

  /** A block's lenses are its own followed by its children's. */
  lemma BlockLenses(labels: Labels, node: ParsedNode, prefix: string, metadata: seq<SnapshotMetadata>)
    requires IsTestBlock(node)
    ensures NodeLenses(labels, node, prefix, metadata)
         == CreateLensAt(labels, node.start.line, node.start.column, node.file, FullName(prefix, node.name),
                         AnyEnclosed(RangeOf(node), metadata))
            + ChildrenLenses(labels, node, |Children(node)|, FullName(prefix, node.name), metadata)
  {
  }

  /** One more child adds that child's lenses at the end. */
  lemma ChildrenLensesStep(labels: Labels, parent: ParsedNode, i: nat, prefix: string, metadata: seq<SnapshotMetadata>)
    requires i < |Children(parent)|
    ensures ChildrenLenses(labels, parent, i + 1, prefix, metadata)
         == ChildrenLenses(labels, parent, i, prefix, metadata) + NodeLenses(labels, Children(parent)[i], prefix, metadata)
  {
  }

  /** `BlockLenses` behind what the array already held. */
  lemma BlockLensesAfter(labels: Labels, node: ParsedNode, prefix: string, metadata: seq<SnapshotMetadata>,
                         start: seq<CodeLens>)
    requires IsTestBlock(node)
    ensures start + CreateLensAt(labels, node.start.line, node.start.column, node.file, FullName(prefix, node.name),
                                 AnyEnclosed(RangeOf(node), metadata))
                  + ChildrenLenses(labels, node, |Children(node)|, FullName(prefix, node.name), metadata)
         == start + NodeLenses(labels, node, prefix, metadata)
  {
    BlockLenses(labels, node, prefix, metadata);
  }

  /** The lens array that `genCodeLens` pushes onto. */
  class LensArray {
    var items: seq<CodeLens>

    constructor ()
      ensures items == []
    {
      items := [];
    }

    /** `push(...lenses)`. */
    method PushAll(lenses: seq<CodeLens>)
      modifies this
      ensures items == old(items) + lenses
    {
      items := items + lenses;
    }
  }

  /**
   * `genCodeLens`: appends the node's lenses to the array after what it
   * already holds, and returns that same array.
   */
  method GenCodeLens(labels: Labels, codeLenses: LensArray, node: ParsedNode, prefixTestName: string,
                     metadata: seq<SnapshotMetadata>) returns (r: LensArray)
    modifies codeLenses
    ensures r == codeLenses
    ensures codeLenses.items == old(codeLenses.items) + NodeLenses(labels, node, prefixTestName, metadata)
    decreases node, 1
  {
    if IsTestBlock(node) {
      var name := FullName(prefixTestName, node.name);
      var snapshots := HasSnapshots(RangeOf(node), metadata);
      var lenses := CreateLensAt(labels, node.start.line, node.start.column, node.file, name, snapshots);
      codeLenses.PushAll(lenses);
      GenChildLenses(labels, codeLenses, node, name, metadata);
      BlockLensesAfter(labels, node, prefixTestName, metadata, old(codeLenses.items));
    }
    r := codeLenses;
  }

  /** `node.children?.forEach(...)`: the walk of each child in turn, under the block's name. */
  method GenChildLenses(labels: Labels, codeLenses: LensArray, parent: ParsedNode, name: string,
                        metadata: seq<SnapshotMetadata>)
    modifies codeLenses
    ensures codeLenses.items == old(codeLenses.items) + ChildrenLenses(labels, parent, |Children(parent)|, name, metadata)
    decreases parent, 0
  {
    var children := Children(parent);
    ghost var start := codeLenses.items;
    var i := 0;
    while i < |children|
      invariant 0 <= i <= |children|
      invariant codeLenses.items == start + ChildrenLenses(labels, parent, i, name, metadata)
    {
      ChildIsSmaller(parent, i);
      var _ := GenCodeLens(labels, codeLenses, children[i], name, metadata);
      ChildrenLensesAfter(labels, parent, i, name, metadata, start);
      i := i + 1;
    }
  }

  /** One more child's lenses after the earlier children's, behind what the array held. */
  lemma ChildrenLensesAfter(labels: Labels, parent: ParsedNode, i: nat, prefix: string,
                            metadata: seq<SnapshotMetadata>, start: seq<CodeLens>)
    requires i < |Children(parent)|
    ensures start + ChildrenLenses(labels, parent, i, prefix, metadata) + NodeLenses(labels, Children(parent)[i], prefix, metadata)
         == start + ChildrenLenses(labels, parent, i + 1, prefix, metadata)
  {
    ChildrenLensesStep(labels, parent, i, prefix, metadata);
  }

  /**
   * `parsed.root.children?.forEach(...)`: each root child walked on a
   * fresh array with an empty prefix, its lenses pushed in child order.
   */
  method GenRootLenses(labels: Labels, codeLenses: LensArray, root: ParsedNode, metadata: seq<SnapshotMetadata>)
    modifies codeLenses
    ensures codeLenses.items == old(codeLenses.items) + ChildrenLenses(labels, root, |Children(root)|, "", metadata)
  {
    var children := Children(root);
    ghost var start := codeLenses.items;
    var i := 0;
    while i < |children|
      invariant 0 <= i <= |children|
      invariant codeLenses.items == start + ChildrenLenses(labels, root, i, "", metadata)
    {
      var childArray := new LensArray();
      var childLenses := GenCodeLens(labels, childArray, children[i], "", metadata);
      RootChildLenses(labels, root, i, metadata, start, childLenses.items);
      codeLenses.PushAll(childLenses.items);
      i := i + 1;
    }
  }

  /** The lenses one root child's walk produced on a fresh array, behind the earlier root children's. */
  lemma RootChildLenses(labels: Labels, root: ParsedNode, i: nat, metadata: seq<SnapshotMetadata>,
                        start: seq<CodeLens>, walked: seq<CodeLens>)
    requires i < |Children(root)|
    requires walked == [] + NodeLenses(labels, Children(root)[i], "", metadata)
    ensures start + ChildrenLenses(labels, root, i, "", metadata) + walked
         == start + ChildrenLenses(labels, root, i + 1, "", metadata)
  {
    assert walked == NodeLenses(labels, Children(root)[i], "", metadata);
    ChildrenLensesAfter(labels, root, i, "", metadata, start);
  }

  /** What the parser and the snapshot reader produced, or their failure. */
  datatype ParseOutcome = Parsed(root: ParsedNode, metadata: seq<SnapshotMetadata>) | ParseFailed

  /** The promise `provideCodeLenses` returns: rejected, or resolved with lenses. */
  datatype LensResponse = Rejected | Resolved(lenses: seq<CodeLens>)

  /**
   * `provideCodeLenses`: rejected for an unsaved document; otherwise the
   * lenses of the root's children, each walked with an empty prefix, in
   * order; a parse failure is swallowed and resolves with no lenses.
   */
  method ProvideCodeLenses(labels: Labels, isDirty: bool, outcome: ParseOutcome) returns (response: LensResponse)
    ensures isDirty <==> response.Rejected?
    ensures !isDirty && outcome.ParseFailed? ==> response == Resolved([])
    ensures !isDirty && outcome.Parsed? ==>
      response == Resolved(ChildrenLenses(labels, outcome.root, |Children(outcome.root)|, "", outcome.metadata))
  {
    if isDirty {
      return Rejected;
    }
    var codeLenses := new LensArray();
    if outcome.Parsed? {
      GenRootLenses(labels, codeLenses, outcome.root, outcome.metadata);
    }
    response := Resolved(codeLenses.items);
  }

  // ---------------------------------------------------------------------
  // Properties of the walk
  // ---------------------------------------------------------------------

  /** The number of `describe` and `it` blocks the walk reaches from a node. */
  function BlockCount(node: ParsedNode): nat
    decreases node, 1, 0
  {
    if IsTestBlock(node) then 1 + ChildrenBlockCount(node, |Children(node)|) else 0
  }

  /** The number of blocks the walk reaches from the first `i` children. */
  function ChildrenBlockCount(parent: ParsedNode, i: nat): nat
    requires i <= |Children(parent)|
    decreases parent, 0, i
  {
    if i == 0 then 0
    else
      ChildIsSmaller(parent, i - 1);
      ChildrenBlockCount(parent, i - 1) + BlockCount(Children(parent)[i - 1])
  }

  /**
   * Every reached block gets two or three lenses, and exactly two when no
   * snapshot call is known.
   */
  lemma {:induction false} NodeLensCount(labels: Labels, node: ParsedNode, prefix: string, metadata: seq<SnapshotMetadata>)
    ensures 2 * BlockCount(node) <= |NodeLenses(labels, node, prefix, metadata)| <= 3 * BlockCount(node)
    ensures metadata == [] ==> |NodeLenses(labels, node, prefix, metadata)| == 2 * BlockCount(node)
    decreases node, 1, 0
  {
    if IsTestBlock(node) {
      ChildrenLensCount(labels, node, |Children(node)|, FullName(prefix, node.name), metadata);
    }
  }

  /** `NodeLensCount` for the first `i` children of a node. */
  lemma {:induction false} ChildrenLensCount(labels: Labels, parent: ParsedNode, i: nat, prefix: string,
                                             metadata: seq<SnapshotMetadata>)
    requires i <= |Children(parent)|
    ensures 2 * ChildrenBlockCount(parent, i) <= |ChildrenLenses(labels, parent, i, prefix, metadata)|
                                               <= 3 * ChildrenBlockCount(parent, i)
    ensures metadata == [] ==> |ChildrenLenses(labels, parent, i, prefix, metadata)| == 2 * ChildrenBlockCount(parent, i)
    decreases parent, 0, i
  {
    if i > 0 {
      ChildIsSmaller(parent, i - 1);
      ChildrenLensCount(labels, parent, i - 1, prefix, metadata);
      NodeLensCount(labels, Children(parent)[i - 1], prefix, metadata);
    }
  }

  /**
   * A lens placed at a point (an empty range), whose arguments are a file
   * and a test name beginning with `name`.
   */
  predicate LensUnder(lens: CodeLens, name: string)
  {
    lens.range.start == lens.range.end
    && |lens.command.arguments| == 2
    && name <= lens.command.arguments[1]
  }

  /**
   * Every lens of a block is an empty range whose test name extends the
   * block's full name, so a descendant's name begins with its parent's full
   * name and a space whenever that full name is non-empty.
   */
  lemma {:induction false} NodeLensesUnder(labels: Labels, node: ParsedNode, prefix: string, metadata: seq<SnapshotMetadata>)
    ensures forall l :: l in NodeLenses(labels, node, prefix, metadata) ==> LensUnder(l, FullName(prefix, node.name))
    decreases node, 1, 0
  {
    if IsTestBlock(node) {
      var name := FullName(prefix, node.name);
      ChildrenLensesUnder(labels, node, |Children(node)|, name, metadata);
      forall l | l in NodeLenses(labels, node, prefix, metadata)
        ensures LensUnder(l, name)
      {
        var own := CreateLensAt(labels, node.start.line, node.start.column, node.file, name,
                                AnyEnclosed(RangeOf(node), metadata));
        if l !in own {
          assert LensUnder(l, Qualifier(name));
        }
      }
    }
  }

  /** `NodeLensesUnder` for the first `i` children of a node. */
  lemma {:induction false} ChildrenLensesUnder(labels: Labels, parent: ParsedNode, i: nat, prefix: string,
                                               metadata: seq<SnapshotMetadata>)
    requires i <= |Children(parent)|
    ensures forall l :: l in ChildrenLenses(labels, parent, i, prefix, metadata) ==> LensUnder(l, Qualifier(prefix))
    decreases parent, 0, i
  {
    if i > 0 {
      ChildIsSmaller(parent, i - 1);
      var child := Children(parent)[i - 1];
      ChildrenLensesUnder(labels, parent, i - 1, prefix, metadata);
      NodeLensesUnder(labels, child, prefix, metadata);
      forall l | l in NodeLenses(labels, child, prefix, metadata)
        ensures LensUnder(l, Qualifier(prefix))
      {
        assert LensUnder(l, FullName(prefix, child.name));
      }
    }
  }

  /**
   * The walk from a node that is not a `describe` or `it` block yields
   * nothing, even when blocks lie below it.
   */
  lemma OtherNodesYieldNothing(labels: Labels, node: ParsedNode, prefix: string, metadata: seq<SnapshotMetadata>)
    requires !IsTestBlock(node)
    ensures NodeLenses(labels, node, prefix, metadata) == []
    ensures BlockCount(node) == 0
  {
  }

  /** Every non-empty walk starts with a run lens. */
  lemma {:induction false} NodeLensesStartWithRun(labels: Labels, node: ParsedNode, prefix: string,
                                                  metadata: seq<SnapshotMetadata>)
    ensures NodeLenses(labels, node, prefix, metadata) != [] ==>
      NodeLenses(labels, node, prefix, metadata)[0].command.command == "jestRunItCodeLens.runTest"
  {
  }

  /** `NodeLensesStartWithRun` for the first `i` children of a node. */
  lemma {:induction false} ChildrenLensesStartWithRun(labels: Labels, parent: ParsedNode, i: nat, prefix: string,
                                                      metadata: seq<SnapshotMetadata>)
    requires i <= |Children(parent)|
    ensures ChildrenLenses(labels, parent, i, prefix, metadata) != [] ==>
      ChildrenLenses(labels, parent, i, prefix, metadata)[0].command.command == "jestRunItCodeLens.runTest"
  {
    if i > 0 {
      ChildrenLensesStartWithRun(labels, parent, i - 1, prefix, metadata);
      NodeLensesStartWithRun(labels, Children(parent)[i - 1], prefix, metadata);
    }
  }

  /**
   * A block's own lenses come first (pre-order), run then debug; an
   * update-snapshots lens follows them exactly when a snapshot call lies
   * within the block.
   */
  lemma BlockLensesFirst(labels: Labels, node: ParsedNode, prefix: string, metadata: seq<SnapshotMetadata>)
    requires IsTestBlock(node)
    ensures var lenses := NodeLenses(labels, node, prefix, metadata);
      var name := FullName(prefix, node.name);
      |lenses| >= 2
      && lenses[0].command == RunCommand(labels, node.file, name)
      && lenses[1].command == DebugCommand(labels, node.file, name)
      && (AnyEnclosed(RangeOf(node), metadata) <==>
            |lenses| >= 3 && lenses[2].command.command == "jestRunItCodeLens.updateSnapshots")
      && (AnyEnclosed(RangeOf(node), metadata) ==> lenses[2].command == UpdateSnapshotsCommand(labels, node.file, name))
  {
    var name := FullName(prefix, node.name);
    ChildrenLensesStartWithRun(labels, node, |Children(node)|, name, metadata);
  }
}
