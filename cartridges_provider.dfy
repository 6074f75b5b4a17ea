/**
 * extension/CartridgesProvider.js: the data provider of the Cartridges
 * view. It holds the root items handed over by the last refresh and finds
 * the chain of items that leads to the file open in the editor.
 */
module CartridgesView {
  import opened Strings
  import opened Wrappers
  import opened Constants
  import opened Util
  import opened TreeItems

  /** `items.find(item => item.name === name)`, as an index, or -1. */
  function FindItem(items: seq<TreeItem>, name: string): (r: int)
    ensures -1 <= r < |items|
    ensures r >= 0 ==> items[r].info.name == name && forall i :: 0 <= i < r ==> items[i].info.name != name
    ensures r < 0 ==> forall i :: 0 <= i < |items| ==> items[i].info.name != name
  {
    if |items| == 0 then -1
    else if items[0].info.name == name then 0
    else
      var r := FindItem(items[1..], name);
      if r < 0 then -1 else r + 1
  }

  /**
   * The item among `items` named `tree[level]`; `tree[level]` past the end is
   * `undefined`, which no name equals.
   */
  function Step(items: seq<TreeItem>, tree: seq<string>, level: nat): Option<TreeItem> {
    if level >= |tree| then None
    else
      var i := FindItem(items, tree[level]);
      if i < 0 then None else Some(items[i])
  }

  /** The chain of items the walk collects from `items` on, for the names `tree[level..]`. */
  function Chain(items: seq<TreeItem>, tree: seq<string>, level: nat): seq<TreeItem>
    decreases |tree| - level
  {
    match Step(items, tree, level)
    case None => []
    case Some(e) => [e] + Chain(e.children, tree, level + 1)
  }

  /** `[cartridge].concat(relativePath.split(SEP))`. */
  function TreePath(p: CartridgeParts): (tree: seq<string>)
    ensures |tree| >= 2 && tree[0] == p.cartridge && tree[1..] == Split(p.relativePath, SEP)
  {
    SplitParts(p.relativePath, SEP);
    [p.cartridge] + Split(p.relativePath, SEP)
  }

  /**
   * `getElement(file)` AS WRITTEN: `parts.length` is read without checking
   * the match and `this.treeData.find` without checking that a refresh
   * happened, so either case throws.
   */
  function ElementAsWritten(treeData: Option<seq<TreeItem>>, file: string): Option<seq<TreeItem>> {
    match MatchCartridge(file)
    case None => None
    case Some(p) => if treeData.None? then None else Some(Chain(treeData.value, TreePath(p), 0))
  }

  /** `getElement(file)` with both checks: nothing is found for a file outside the pattern or an empty view. */
  function Element(treeData: Option<seq<TreeItem>>, file: string): seq<TreeItem> {
    match MatchCartridge(file)
    case None => []
    case Some(p) => if treeData.None? then [] else Chain(treeData.value, TreePath(p), 0)
  }

  /** The corrected lookup agrees with the code as written wherever that does not throw. */
  lemma ElementCorrects(treeData: Option<seq<TreeItem>>, file: string)
    ensures ElementAsWritten(treeData, file).None? <==> MatchCartridge(file).None? || treeData.None?
    ensures ElementAsWritten(treeData, file).Some? ==> ElementAsWritten(treeData, file).value == Element(treeData, file)
  {
  }

  /**
   * A `controllers` folder outside any cartridge: the editor hook accepts the
   * file (it has a known type and a `.js` extension), and the lookup throws.
   */
  lemma ControllerOutsideCartridgeThrows(treeData: seq<TreeItem>)
    ensures var file := CONTROLLERS_DIR + "A.js";
      && GetType(file) == Controller
      && ElementAsWritten(Some(treeData), file).None?
      && Element(Some(treeData), file) == []
  {
    var file := CONTROLLERS_DIR + "A.js";
    ControllerAtAnyDepth("", "A.js");
    assert "" + CONTROLLERS_DIR + "A.js" == file;
    ShortPathUnmatched(file);
  }

  /**
   * The chain follows the names: its k-th item is named `tree[level + k]`,
   * each item after the first is a child of the one before, and it is never
   * longer than the names left.
   */
  lemma {:induction false} ChainFollowsNames(items: seq<TreeItem>, tree: seq<string>, level: nat)
    requires level <= |tree|
    ensures var c := Chain(items, tree, level);
      && |c| <= |tree| - level
      && (forall k :: 0 <= k < |c| ==> c[k].info.name == tree[level + k])
      && (|c| > 0 ==> c[0] in items)
      && (forall k :: 0 <= k < |c| - 1 ==> c[k + 1] in c[k].children)
    decreases |tree| - level
  {
    match Step(items, tree, level)
    case None =>
    case Some(e) =>
      ChainFollowsNames(e.children, tree, level + 1);
      var c := Chain(items, tree, level);
      assert c == [e] + Chain(e.children, tree, level + 1);
      assert forall k :: 1 <= k < |c| ==> c[k] == Chain(e.children, tree, level + 1)[k - 1];
  }

  /**
   * The chain takes at every level the item `Step` picks, the first with the
   * next name, and it stops only where no item of the current list has the
   * next name (or the names ran out).
   */
  lemma ChainFirstMatchLongest(items: seq<TreeItem>, tree: seq<string>, level: nat)
    requires level <= |tree|
    ensures var c := Chain(items, tree, level);
      && (|c| > 0 ==> Step(items, tree, level) == Some(c[0]))
      && (forall k :: 0 <= k < |c| - 1 ==> Step(c[k].children, tree, level + k + 1) == Some(c[k + 1]))
      && (|c| < |tree| - level ==>
            forall i :: 0 <= i < |LastList(items, c)| ==> LastList(items, c)[i].info.name != tree[level + |c|])
  {
    ChainHead(items, tree, level);
    ChainLinks(items, tree, level);
    ChainLongest(items, tree, level);
  }

  /** A chain that is not empty starts with the item `Step` picks. */
  lemma ChainHead(items: seq<TreeItem>, tree: seq<string>, level: nat)
    requires level <= |tree|
    ensures |Chain(items, tree, level)| > 0 ==> Step(items, tree, level) == Some(Chain(items, tree, level)[0])
  {
  }

  /** Each item of the chain is the first match among the children of the one before. */
  lemma {:induction false} ChainLinks(items: seq<TreeItem>, tree: seq<string>, level: nat)
    requires level <= |tree|
    ensures var c := Chain(items, tree, level);
      forall k :: 0 <= k < |c| - 1 ==> Step(c[k].children, tree, level + k + 1) == Some(c[k + 1])
    decreases |tree| - level
  {
    match Step(items, tree, level)
    case None =>
    case Some(e) =>
      ChainLinks(e.children, tree, level + 1);
      ChainHead(e.children, tree, level + 1);
      var rest := Chain(e.children, tree, level + 1);
      var c := Chain(items, tree, level);
      assert c == [e] + rest;
      forall k | 0 <= k < |c| - 1 ensures Step(c[k].children, tree, level + k + 1) == Some(c[k + 1]) {
        assert c[k + 1] == rest[k];
        if k > 0 {
          assert c[k] == rest[k - 1];
        }
      }
  }

  /** The list the chain ends in: the children of its last item, or the list it started from. */
  function LastList(items: seq<TreeItem>, c: seq<TreeItem>): seq<TreeItem> {
    if |c| == 0 then items else c[|c| - 1].children
  }

  lemma LastListCons(items: seq<TreeItem>, e: TreeItem, rest: seq<TreeItem>)
    ensures LastList(items, [e] + rest) == LastList(e.children, rest)
  {
    if |rest| > 0 {
      assert ([e] + rest)[|rest|] == rest[|rest| - 1];
    }
  }

  /** A chain that stops short of the path stops at a level where no child has the next name. */
  lemma {:induction false} ChainLongest(items: seq<TreeItem>, tree: seq<string>, level: nat)
    requires level <= |tree|
    ensures var c := Chain(items, tree, level);
      |c| < |tree| - level ==>
        forall i :: 0 <= i < |LastList(items, c)| ==> LastList(items, c)[i].info.name != tree[level + |c|]
    decreases |tree| - level
  {
    match Step(items, tree, level)
    case None =>
    case Some(e) =>
      ChainLongest(e.children, tree, level + 1);
      var rest := Chain(e.children, tree, level + 1);
      assert Chain(items, tree, level) == [e] + rest;
      LastListCons(items, e, rest);
  }

  /** Nothing is found when no root item has the cartridge's name. */
  lemma NoRootNoElement(treeData: seq<TreeItem>, file: string)
    requires MatchCartridge(file).Some?
    requires forall i :: 0 <= i < |treeData| ==> treeData[i].info.name != MatchCartridge(file).value.cartridge
    ensures Element(Some(treeData), file) == []
  {
    var tree := TreePath(MatchCartridge(file).value);
    assert FindItem(treeData, tree[0]) < 0;
  }

  class CartridgesProvider {
    var treeData: Option<seq<TreeItem>>

    /** No data until the first refresh. */
    constructor()
      ensures treeData.None?
    {
      treeData := None;
    }

    /** `getChildren(element)`: an item's own children, or the root list without an item. */
    method GetChildren(element: Option<TreeItem>) returns (r: Option<seq<TreeItem>>)
      ensures element.Some? ==> r == Some(element.value.children)
      ensures element.None? ==> r == treeData
    {
      if element.Some? {
        r := Some(element.value.children);
      } else {
        r := treeData;
      }
    }

    /** `refresh(treeData)` replaces the root list; the next `getChildren()` returns it. */
    method Refresh(data: seq<TreeItem>)
      modifies this`treeData
      ensures treeData == Some(data)
    {
      treeData := Some(data);
    }

    /** The `while (element !== undefined)` walk of `getElement`, with the missing checks added. */
    method GetElement(file: string) returns (found: seq<TreeItem>)
      ensures found == Element(treeData, file)
    {
      found := [];
      match MatchCartridge(file) {
        case None =>
        case Some(p) =>
          if treeData.Some? {
            var tree := TreePath(p);
            var level := 0;
            var element := Step(treeData.value, tree, level);
            while element.Some?
              invariant element.Some? ==> level < |tree|
              invariant found + (if element.Some? then [element.value] + Chain(element.value.children, tree, level + 1) else [])
                     == Chain(treeData.value, tree, 0)
              decreases |tree| - level
            {
              level := level + 1;
              found := found + [element.value];
              element := Step(element.value.children, tree, level);
            }
          }
      }
    }
  }

  /**
   * `CartridgesViewProvider` of the older generation (sfccCartridgesView.js):
   * the same root list, handed in at construction and replaced by `update`.
   */
  class LegacyViewProvider {
    var treeData: Option<seq<TreeItem>>
    var autoRefresh: bool

    /** The tree it is given, `undefined` when none is; refreshing on changes is on. */
    constructor(treeData: Option<seq<TreeItem>>)
      ensures this.treeData == treeData && autoRefresh
    {
      this.treeData := treeData;
      autoRefresh := true;
    }

    /**
     * `getChildren(element)`: an item's own children, or the root list
     * without an item. The current provider kept this method unchanged; the
     * two classes differ in how the root list arrives (a constructor
     * argument and `update` here, `refresh` there) and in `getElement`,
     * which only the current one has.
     */
    method GetChildren(element: Option<TreeItem>) returns (r: Option<seq<TreeItem>>)
      ensures element.Some? ==> r == Some(element.value.children)
      ensures element.None? ==> r == treeData
    {
      if element.Some? {
        r := Some(element.value.children);
      } else {
        r := treeData;
      }
    }

    /** `update(treeData)` replaces the root list and nothing else. */
    method Update(data: Option<seq<TreeItem>>)
      modifies this`treeData
      ensures treeData == data
    {
      treeData := data;
    }
  }

  /**
   * The older activation builds the provider without a tree
   * (extension.js:15), so the view's first `getChildren()` has no root list.
   */
  method LegacyActivationRoots() returns (r: Option<seq<TreeItem>>)
    ensures r.None?
  {
    var provider := new LegacyViewProvider(None);
    r := provider.GetChildren(None);
  }
}
