/**
 * The items both generations hand to the Cartridges tree view, their
 * override labels, and the order `obj.treeData.sort(...)` keeps among
 * siblings: by name on the first level, folders before files and then by
 * name below it.
 */
module TreeItems {
  import opened Strings
  import opened Wrappers
  import opened Util
  import opened OverrideIndex

  /**
   * A label of the tree view, kept abstract: the message catalogue (or the
   * literal English text of the older generation) is not part of this model.
   */
  datatype Msg =
    | AboveDescription(count: nat)
    | AboveTooltip(count: nat, plural: bool)
    | BelowDescription(count: nat)
    | BelowTooltip(count: nat, plural: bool)
    | MissingDescription
    | MissingTooltip

  /** What clicking an item does. */
  datatype Command =
    | Open(resource: string)                                  // `vscode.open` with the file's Uri
    | CartridgeMissing(name: string)                          // `extension.sfccCartridges.cartridgeMissing`
    | ViewOverrides(overrides: seq<Occurrence>, cartridge: string)  // `extension.sfccCartridges.viewOverrides`

  /** `treeItem.data`, handed to the overrides panel. */
  datatype FileData = FileData(cartridge: string, name: string, overrides: seq<Occurrence>, resource: string, fileType: FileType)

  /** Everything of a tree item except its children. */
  datatype ItemInfo = ItemInfo(
    name: string,
    context: string,
    overrides: Option<Overrides>,
    icon: Option<IconPath>,
    resource: Option<string>,
    command: Option<Command>,
    data: Option<FileData>,
    description: seq<Msg>,   // joined with ' '; empty stands for null
    tooltip: seq<Msg>)       // joined with ' '; empty stands for null

  datatype TreeItem = TreeItem(info: ItemInfo, children: seq<TreeItem>)

  /** The description of an item with these counts: the `above` part, then the `below` part. */
  function Description(ov: Overrides): seq<Msg> {
    (if ov.above > 0 then [AboveDescription(ov.above)] else [])
    + (if ov.below > 0 then [BelowDescription(ov.below)] else [])
  }

  /** The tooltip: the same two parts, each singular or plural by its count. */
  function Tooltip(ov: Overrides): seq<Msg> {
    (if ov.above > 0 then [AboveTooltip(ov.above, ov.above > 1)] else [])
    + (if ov.below > 0 then [BelowTooltip(ov.below, ov.below > 1)] else [])
  }

  /**
   * The labels are null exactly when nothing is overridden on either side,
   * and otherwise name the side above before the side below.
   */
  lemma LabelsAboveThenBelow(ov: Overrides)
    ensures Description(ov) == [] <==> ov.above == 0 && ov.below == 0
    ensures Tooltip(ov) == [] <==> ov.above == 0 && ov.below == 0
    ensures |Description(ov)| == |Tooltip(ov)| <= 2
    ensures ov.above > 0 ==>
      Description(ov)[0] == AboveDescription(ov.above) && Tooltip(ov)[0] == AboveTooltip(ov.above, ov.above > 1)
    ensures ov.below > 0 ==>
      Description(ov)[|Description(ov)| - 1] == BelowDescription(ov.below)
      && Tooltip(ov)[|Tooltip(ov)| - 1] == BelowTooltip(ov.below, ov.below > 1)
    ensures forall m :: m in Tooltip(ov) ==> (m.AboveTooltip? || m.BelowTooltip?) && m.plural == (m.count > 1)
  {
  }

  // ---------------------------------------------------------------------
  // Sibling order

  /**
   * The comparator of the sibling sort, read as "compare(e, x) > 0": on the
   * first level by name; below it by name when the contexts agree, and
   * otherwise `b.contextValue !== 'file' ? 1 : -1` with `b` the second item.
   */
  predicate Greater(e: ItemInfo, x: ItemInfo, depth: nat) {
    if depth == 0 then LexLess(x.name, e.name)
    else if e.context == x.context then LexLess(x.name, e.name)
    else x.context != "file"
  }

  /**
   * Pushing an item onto a sorted children list and sorting it again: the
   * sort is stable, so the new item goes after every sibling the comparator
   * does not put behind it.
   */
  function InsertItem(items: seq<TreeItem>, x: TreeItem, depth: nat): seq<TreeItem> {
    if |items| == 0 || !Greater(items[|items| - 1].info, x.info, depth) then items + [x]
    else InsertItem(items[..|items| - 1], x, depth) + [items[|items| - 1]]
  }

  function ItemInsertionPoint(items: seq<TreeItem>, x: TreeItem, depth: nat): (k: nat)
    ensures k <= |items|
    ensures forall i :: k <= i < |items| ==> Greater(items[i].info, x.info, depth)
    ensures k > 0 ==> !Greater(items[k - 1].info, x.info, depth)
  {
    if |items| == 0 || !Greater(items[|items| - 1].info, x.info, depth) then |items|
    else ItemInsertionPoint(items[..|items| - 1], x, depth)
  }

  /** The new item lands at the insertion point; the other siblings keep their order. */
  lemma {:induction false} InsertItemShape(items: seq<TreeItem>, x: TreeItem, depth: nat)
    ensures var k := ItemInsertionPoint(items, x, depth); InsertItem(items, x, depth) == items[..k] + [x] + items[k..]
  {
    if |items| > 0 && Greater(items[|items| - 1].info, x.info, depth) {
      var init := items[..|items| - 1];
      InsertItemShape(init, x, depth);
      var k := ItemInsertionPoint(init, x, depth);
      assert init[..k] == items[..k];
      assert init[k..] + [items[|items| - 1]] == items[k..];
    }
  }

  /** Below the first level the trie only makes folders and files. */
  predicate ContextOk(info: ItemInfo, depth: nat) {
    depth > 0 ==> info.context == "file" || info.context == "folder"
  }

  /** 0 for folders, 1 for files below the first level; all equal on the first level. */
  function Rank(info: ItemInfo, depth: nat): nat {
    if depth > 0 && info.context == "file" then 1 else 0
  }

  /** The order the comparator describes: rank, then name. */
  predicate SiblingLess(a: ItemInfo, b: ItemInfo, depth: nat) {
    Rank(a, depth) < Rank(b, depth) || (Rank(a, depth) == Rank(b, depth) && LexLess(a.name, b.name))
  }

  /** On folders and files the comparator is exactly that order. */
  lemma GreaterIsSiblingLess(e: ItemInfo, x: ItemInfo, depth: nat)
    requires ContextOk(e, depth) && ContextOk(x, depth)
    ensures Greater(e, x, depth) <==> SiblingLess(x, e, depth)
  {
  }

  lemma SiblingLessTransitive(a: ItemInfo, b: ItemInfo, c: ItemInfo, depth: nat)
    requires SiblingLess(a, b, depth) && SiblingLess(b, c, depth)
    ensures SiblingLess(a, c, depth)
  {
    if Rank(a, depth) == Rank(b, depth) == Rank(c, depth) {
      LexLessTransitive(a.name, b.name, c.name);
    }
  }

  lemma SiblingLessTotal(a: ItemInfo, b: ItemInfo, depth: nat)
    requires a.name != b.name
    ensures SiblingLess(a, b, depth) || SiblingLess(b, a, depth)
  {
    LexLessTotal(a.name, b.name);
  }

  /** Siblings in strictly increasing order, hence with distinct names. */
  predicate SortedSiblings(items: seq<TreeItem>, depth: nat) {
    forall i, j :: 0 <= i < j < |items| ==> SiblingLess(items[i].info, items[j].info, depth)
  }

  /** The insertion keeps the siblings and adds the new item. */
  lemma InsertItemMembers(items: seq<TreeItem>, x: TreeItem, depth: nat)
    ensures |InsertItem(items, x, depth)| == |items| + 1
    ensures forall t :: t in InsertItem(items, x, depth) <==> t in items || t == x
  {
    InsertItemShape(items, x, depth);
    var k := ItemInsertionPoint(items, x, depth);
    assert items == items[..k] + items[k..];
  }

  /**
   * Inserting a folder or file whose name no sibling has into a sorted
   * list of folders and files gives a sorted list: siblings sort folders
   * before files and then by name.
   */
  lemma InsertItemSorted(items: seq<TreeItem>, x: TreeItem, depth: nat)
    requires SortedSiblings(items, depth)
    requires forall t :: t in items ==> ContextOk(t.info, depth) && t.info.name != x.info.name
    requires ContextOk(x.info, depth)
    ensures SortedSiblings(InsertItem(items, x, depth), depth)
  {
    InsertItemShape(items, x, depth);
    var k := ItemInsertionPoint(items, x, depth);
    BeforeInsertionPoint(items, x, depth, k);
    AfterInsertionPoint(items, x, depth, k);
    SortedAroundItem(items, k, x, depth);
  }

  /** The siblings before the insertion point all sort before the new item. */
  lemma BeforeInsertionPoint(items: seq<TreeItem>, x: TreeItem, depth: nat, k: nat)
    requires SortedSiblings(items, depth)
    requires forall t :: t in items ==> ContextOk(t.info, depth) && t.info.name != x.info.name
    requires ContextOk(x.info, depth)
    requires k == ItemInsertionPoint(items, x, depth)
    ensures forall i :: 0 <= i < k ==> SiblingLess(items[i].info, x.info, depth)
  {
    if k > 0 {
      var last := items[k - 1];
      assert last in items;
      GreaterIsSiblingLess(last.info, x.info, depth);
      SiblingLessTotal(last.info, x.info, depth);
      forall i | 0 <= i < k - 1 ensures SiblingLess(items[i].info, x.info, depth) {
        SiblingLessTransitive(items[i].info, last.info, x.info, depth);
      }
    }
  }

  /** The siblings from the insertion point on all sort after the new item. */
  lemma AfterInsertionPoint(items: seq<TreeItem>, x: TreeItem, depth: nat, k: nat)
    requires forall t :: t in items ==> ContextOk(t.info, depth)
    requires ContextOk(x.info, depth)
    requires k == ItemInsertionPoint(items, x, depth)
    ensures forall i :: k <= i < |items| ==> SiblingLess(x.info, items[i].info, depth)
  {
    forall i | k <= i < |items| ensures SiblingLess(x.info, items[i].info, depth) {
      assert items[i] in items;
      GreaterIsSiblingLess(items[i].info, x.info, depth);
    }
  }

  lemma SortedAroundItem(items: seq<TreeItem>, k: nat, x: TreeItem, depth: nat)
    requires k <= |items| && SortedSiblings(items, depth)
    requires forall i :: 0 <= i < k ==> SiblingLess(items[i].info, x.info, depth)
    requires forall i :: k <= i < |items| ==> SiblingLess(x.info, items[i].info, depth)
    ensures SortedSiblings(items[..k] + [x] + items[k..], depth)
  {
    var r := items[..k] + [x] + items[k..];
    forall i, j | 0 <= i < j < |r| ensures SiblingLess(r[i].info, r[j].info, depth) {
      if j < k {
        assert r[i] == items[i] && r[j] == items[j];
      } else if j == k {
        assert r[i] == items[i];
      } else if i < k {
        assert r[i] == items[i] && r[j] == items[j - 1];
      } else if i == k {
        assert r[j] == items[j - 1];
      } else {
        assert r[i] == items[i - 1] && r[j] == items[j - 1];
      }
    }
  }
}
