/**
 * The segment trie `processFiles` builds for each cartridge of the path
 * (`splitRelativePath.reduce(...)`), shared by both generations. A node is
 * created the first time a file walks through its segment: its counts come
 * from `getOverrides` (through the counts cache in the current generation),
 * and it is attached to its parent's visible list only when overrides-only
 * is off or its total is positive. The visible tree is the `treeData` lists,
 * kept sorted by the sibling comparator.
 */
module Trie {
  import opened Strings
  import opened Wrappers
  import opened Dicts
  import opened Constants
  import opened Util
  import opened OverrideIndex
  import opened TreeItems

  type Cache = map<string, Overrides>

  /** What one run of `processFiles` reads but does not change. */
  datatype Env = Env(
    legacy: bool,                 // sfccCartridges.js rather than extension/Cartridges.js
    cartridgesPath: seq<string>,
    workspacePath: string,
    iconDir: string,              // the directory the icon resources are resolved against
    groups: Groups,               // `cartridgeFileData`
    overridesOnly: bool,
    skipCacheWrite: bool)

  ghost predicate EnvOk(env: Env) {
    env.groups.Valid()
  }

  const OVERRIDE_SUFFIX: string := "-override"

  /** `getIcon` of sfccCartridges.js: the suffix is `-override` where the current helper says `-active`. */
  function LegacyGetIcon(dir: string, kind: string, count: int): (r: IconPath)
    ensures count > 0 ==> r == IconPath(dir + "/resources/light/" + kind + "-override.svg", dir + "/resources/dark/" + kind + "-override.svg")
    ensures count <= 0 ==> r == IconPath(dir + "/resources/light/" + kind + ".svg", dir + "/resources/dark/" + kind + ".svg")
    ensures r.light == dir + "/resources/light/" + kind + "-override.svg" <==> count > 0
  {
    var file := IconFile(kind, count, OVERRIDE_SUFFIX);
    ThemedFiles(dir, kind, count, OVERRIDE_SUFFIX);
    IconPath(ThemedPath(dir, "light", file), ThemedPath(dir, "dark", file))
  }

  /** The icon helper of the generation. */
  function Icon(legacy: bool, iconDir: string, kind: string, count: int): IconPath {
    if legacy then LegacyGetIcon(iconDir, kind, count) else GetIcon(iconDir, kind, count)
  }

  /**
   * One `getOverrides(cartridge, relativeKey)` call and the cache after it:
   * the current generation answers from the cache when the key is there and
   * otherwise counts and, unless writes are skipped, stores the counts; the
   * older generation always counts its own way.
   */
  function Resolve(env: Env, cache: Cache, cartridge: string, relativeKey: string): (Overrides, Cache)
    requires EnvOk(env)
  {
    var gs := GroupsOf(env.groups.keys, env.groups.values);
    var position := PositionOf(env.cartridgesPath, cartridge);
    if env.legacy then (LegacyCounts(gs, cartridge, relativeKey, position), cache)
    else
      var key := CacheKey(cartridge, relativeKey);
      if key in cache then (cache[key], cache)
      else
        var ov := Counts(gs, cartridge, relativeKey, position);
        (ov, if env.skipCacheWrite then cache else cache[key := ov])
  }

  /** The counts a fresh lookup produces: the current or the older way of counting. */
  function FreshCounts(env: Env, cartridge: string, relativeKey: string): Overrides
    requires EnvOk(env)
  {
    var gs := GroupsOf(env.groups.keys, env.groups.values);
    var position := PositionOf(env.cartridgesPath, cartridge);
    if env.legacy then LegacyCounts(gs, cartridge, relativeKey, position) else Counts(gs, cartridge, relativeKey, position)
  }

  /**
   * The cache only grows: an entry, once there, keeps its value. The counts
   * returned are the stored ones on a hit, fresh ones otherwise, and a fresh
   * result is stored exactly when writes are not skipped.
   */
  lemma ResolveCache(env: Env, cache: Cache, cartridge: string, relativeKey: string)
    requires EnvOk(env)
    ensures var (ov, after) := Resolve(env, cache, cartridge, relativeKey);
      var key := CacheKey(cartridge, relativeKey);
      && (forall k :: k in cache ==> k in after && after[k] == cache[k])
      && (!env.legacy && key in cache ==> ov == cache[key] && after == cache)
      && (env.legacy || key !in cache ==> ov == FreshCounts(env, cartridge, relativeKey))
      && (after == cache <==> env.legacy || key in cache || env.skipCacheWrite)
      && (after != cache ==> after == cache[key := ov])
  {
    var key := CacheKey(cartridge, relativeKey);
    if !env.legacy && key !in cache && !env.skipCacheWrite {
      assert key in Resolve(env, cache, cartridge, relativeKey).1;
    }
  }

  /** Asking twice gives the same counts when the first answer was stored. */
  lemma ResolveTwice(env: Env, cache: Cache, cartridge: string, relativeKey: string)
    requires EnvOk(env) && !env.skipCacheWrite
    ensures var (ov, after) := Resolve(env, cache, cartridge, relativeKey);
      Resolve(env, after, cartridge, relativeKey) == (ov, after)
  {
  }

  /**
   * Two keys that the cache key cannot tell apart share their counts: once
   * one is stored the other is answered with it.
   */
  lemma ResolveCollision(env: Env, cache: Cache, cartridge: string, a: string, b: string)
    requires EnvOk(env) && !env.legacy && !env.skipCacheWrite
    requires CacheKey(cartridge, a) == CacheKey(cartridge, b)
    ensures var (ov, after) := Resolve(env, cache, cartridge, a);
      Resolve(env, after, cartridge, b).0 == ov
  {
  }

  // ---------------------------------------------------------------------
  // Nodes

  /** A trie node: `obj[name]`, the item built for it, and whether it was pushed to its parent's list. */
  datatype Node = Node(info: ItemInfo, attached: bool, kids: seq<Node>)

  /** A matched file with its path split into segments. */
  datatype FileCtx = FileCtx(file: string, parts: CartridgeParts, segs: seq<string>)

  function CtxOf(file: string, parts: CartridgeParts): (f: FileCtx)
    ensures |f.segs| >= 1
  {
    FileCtx(file, parts, Split(parts.relativePath, SEP))
  }

  /** The context path: base, `/cartridges/`, cartridge, `/cartridge/`, then the segments up to and including `index` joined by separators. */
  function RelativeKey(f: FileCtx, index: nat): string
    requires index < |f.segs|
  {
    f.parts.base + CARTRIDGES_DIR + f.parts.cartridge + CARTRIDGE_DIR + Join(f.segs[..index + 1], [SEP])
  }

  /** The key of a file's last segment is the file path itself. */
  lemma RelativeKeyOfFile(file: string, parts: CartridgeParts)
    requires Decomposes(file, parts)
    ensures var f := CtxOf(file, parts); RelativeKey(f, |f.segs| - 1) == file
  {
    var f := CtxOf(file, parts);
    assert f.segs[..|f.segs|] == f.segs;
    JoinSplit(parts.relativePath, SEP);
  }

  /** The `contextValue` of a segment: the first names its folder, the last is a file. */
  function ContextAt(f: FileCtx, index: nat): string
    requires index < |f.segs|
  {
    if index == 0 then f.segs[index] else if index == |f.segs| - 1 then "file" else "folder"
  }

  /**
   * The tree item of a new node, whether it is attached, and the cache
   * after its `getOverrides` call.
   */
  function NewNode(env: Env, cache: Cache, f: FileCtx, index: nat): (r: (Node, Cache))
    requires EnvOk(env) && index < |f.segs|
    ensures r.0.info.name == f.segs[index] && r.0.info.context == ContextAt(f, index) && r.0.kids == []
    ensures r.0.info.overrides.Some?
    ensures r.0.attached <==> !env.overridesOnly || r.0.info.overrides.value.total > 0
    ensures (r.0.info.overrides.value, r.1) == Resolve(env, cache, f.parts.cartridge, RelativeKey(f, index))
  {
    var name := f.segs[index];
    var context := ContextAt(f, index);
    var key := RelativeKey(f, index);
    var (ov, after) := Resolve(env, cache, f.parts.cartridge, key);
    var icon := if context != "file" && context != "folder" then Some(Icon(env.legacy, env.iconDir, name, ov.total)) else None;
    var isFile := context == "file";
    var resource := env.workspacePath + key;
    var group := if f.parts.relativePath in env.groups.values then env.groups.values[f.parts.relativePath] else [];
    var command :=
      if !isFile then None
      else if env.legacy && ov.total > 0 then Some(ViewOverrides(group, f.parts.cartridge))
      else Some(Open(resource));
    var data :=
      if isFile && !env.legacy then Some(FileData(f.parts.cartridge, LastPart(f.parts.relativePath, SEP), group, resource, GetType(f.file)))
      else None;
    var info := ItemInfo(name, context, Some(ov), icon, if isFile then Some(resource) else None,
                         command, data, Description(ov), Tooltip(ov));
    (Node(info, !env.overridesOnly || ov.total > 0, []), after)
  }

  /** What clicking a file node does: open it, or in the older generation show its overrides when it has some. */
  lemma FileNodeCommand(env: Env, cache: Cache, f: FileCtx, index: nat)
    requires EnvOk(env) && 0 < index == |f.segs| - 1
    ensures var n := NewNode(env, cache, f, index).0;
      var resource := env.workspacePath + RelativeKey(f, index);
      && n.info.context == "file" && n.info.icon.None? && n.info.resource == Some(resource)
      && (n.info.command.value.ViewOverrides? <==> env.legacy && n.info.overrides.value.total > 0)
      && (n.info.command.value.Open? ==> n.info.command.value.resource == resource)
      && (n.info.data.Some? <==> !env.legacy)
  {
  }

  /** The first kid named `name`, or -1: `obj[name]`. */
  function FindKid(kids: seq<Node>, name: string): (r: int)
    ensures -1 <= r < |kids|
    ensures r >= 0 ==> kids[r].info.name == name
    ensures r < 0 ==> forall i :: 0 <= i < |kids| ==> kids[i].info.name != name
  {
    FindKidFrom(kids, name, 0)
  }

  function FindKidFrom(kids: seq<Node>, name: string, from: nat): (r: int)
    requires from <= |kids|
    ensures -1 <= r < |kids|
    ensures r >= 0 ==> kids[r].info.name == name
    ensures r < 0 ==> forall i :: from <= i < |kids| ==> kids[i].info.name != name
    decreases |kids| - from
  {
    if from == |kids| then -1
    else if kids[from].info.name == name then from
    else FindKidFrom(kids, name, from + 1)
  }

  /**
   * The walk of one file from segment `index` on: an existing node is
   * entered, a missing one is created (and its counts looked up) before
   * the walk goes deeper.
   */
  function Insert(env: Env, cache: Cache, kids: seq<Node>, f: FileCtx, index: nat): (seq<Node>, Cache)
    requires EnvOk(env) && index < |f.segs|
    decreases |f.segs| - index
  {
    var i := FindKid(kids, f.segs[index]);
    if i >= 0 then
      if index + 1 < |f.segs| then
        var (sub, after) := Insert(env, cache, kids[i].kids, f, index + 1);
        (kids[i := kids[i].(kids := sub)], after)
      else (kids, cache)
    else
      var (n, c1) := NewNode(env, cache, f, index);
      if index + 1 < |f.segs| then
        var (sub, c2) := Insert(env, c1, [], f, index + 1);
        (kids + [n.(kids := sub)], c2)
      else (kids + [n], c1)
  }

  // ---------------------------------------------------------------------
  // Invariants of the trie

  /** A node's own rules: it has counts, it is attached exactly as overrides-only allows, it is a folder or file below the first level. */
  predicate NodeOk(n: Node, overridesOnly: bool, depth: nat) {
    && n.info.overrides.Some?
    && (n.attached <==> !overridesOnly || n.info.overrides.value.total > 0)
    && ContextOk(n.info, depth)
  }

  /** Sibling names are distinct (each node is created once per parent) and every node keeps its rules. */
  ghost predicate WellFormed(kids: seq<Node>, overridesOnly: bool, depth: nat)
    decreases kids
  {
    && (forall i, j :: 0 <= i < j < |kids| ==> kids[i].info.name != kids[j].info.name)
    && (forall i :: 0 <= i < |kids| ==> NodeOk(kids[i], overridesOnly, depth) && WellFormed(kids[i].kids, overridesOnly, depth + 1))
  }

  /** The path of segments `index..` exists below `kids`. */
  predicate HasPath(kids: seq<Node>, segs: seq<string>, index: nat)
    decreases |segs| - index
  {
    index < |segs| ==>
      var i := FindKid(kids, segs[index]);
      i >= 0 && HasPath(kids[i].kids, segs, index + 1)
  }

  /** Walking a file keeps the trie well formed. */
  lemma {:induction false} InsertWellFormed(env: Env, cache: Cache, kids: seq<Node>, f: FileCtx, index: nat)
    requires EnvOk(env) && index < |f.segs|
    requires WellFormed(kids, env.overridesOnly, index)
    ensures WellFormed(Insert(env, cache, kids, f, index).0, env.overridesOnly, index)
    decreases |f.segs| - index
  {
    var i := FindKid(kids, f.segs[index]);
    if i >= 0 {
      if index + 1 < |f.segs| {
        InsertWellFormed(env, cache, kids[i].kids, f, index + 1);
        var sub := Insert(env, cache, kids[i].kids, f, index + 1).0;
        WellFormedUpdate(kids, i, sub, env.overridesOnly, index);
      }
    } else {
      var (n, c1) := NewNode(env, cache, f, index);
      var sub: seq<Node> := [];
      if index + 1 < |f.segs| {
        InsertWellFormed(env, c1, [], f, index + 1);
        sub := Insert(env, c1, [], f, index + 1).0;
      }
      WellFormedAppend(kids, n.(kids := sub), env.overridesOnly, index);
    }
  }

  lemma WellFormedUpdate(kids: seq<Node>, i: nat, sub: seq<Node>, overridesOnly: bool, depth: nat)
    requires i < |kids| && WellFormed(kids, overridesOnly, depth)
    requires WellFormed(sub, overridesOnly, depth + 1)
    ensures WellFormed(kids[i := kids[i].(kids := sub)], overridesOnly, depth)
  {
    var r := kids[i := kids[i].(kids := sub)];
    assert forall j :: 0 <= j < |kids| ==> r[j].info == kids[j].info && r[j].attached == kids[j].attached;
  }

  lemma WellFormedAppend(kids: seq<Node>, n: Node, overridesOnly: bool, depth: nat)
    requires WellFormed(kids, overridesOnly, depth)
    requires forall i :: 0 <= i < |kids| ==> kids[i].info.name != n.info.name
    requires NodeOk(n, overridesOnly, depth) && WellFormed(n.kids, overridesOnly, depth + 1)
    ensures WellFormed(kids + [n], overridesOnly, depth)
  {
    var r := kids + [n];
    assert forall j :: 0 <= j < |kids| ==> r[j] == kids[j];
  }

  /** After the walk, the file's whole path is in the trie. */
  lemma {:induction false} InsertHasPath(env: Env, cache: Cache, kids: seq<Node>, f: FileCtx, index: nat)
    requires EnvOk(env) && index < |f.segs|
    ensures HasPath(Insert(env, cache, kids, f, index).0, f.segs, index)
    decreases |f.segs| - index
  {
    var i := FindKid(kids, f.segs[index]);
    var r := Insert(env, cache, kids, f, index).0;
    if i >= 0 {
      if index + 1 < |f.segs| {
        InsertHasPath(env, cache, kids[i].kids, f, index + 1);
        var sub := Insert(env, cache, kids[i].kids, f, index + 1).0;
        FindKidUpdate(kids, i, sub, f.segs[index]);
      }
    } else {
      var (n, c1) := NewNode(env, cache, f, index);
      var sub: seq<Node> := [];
      if index + 1 < |f.segs| {
        InsertHasPath(env, c1, [], f, index + 1);
        sub := Insert(env, c1, [], f, index + 1).0;
      }
      FindKidAppend(kids, n.(kids := sub), f.segs[index]);
    }
  }

  lemma FindKidUpdate(kids: seq<Node>, i: nat, sub: seq<Node>, name: string)
    requires i < |kids| && FindKid(kids, name) == i
    ensures FindKid(kids[i := kids[i].(kids := sub)], name) == i
  {
    var r := kids[i := kids[i].(kids := sub)];
    FindKidFromUpdate(kids, r, name, 0, i);
  }

  lemma {:induction false} FindKidFromUpdate(kids: seq<Node>, r: seq<Node>, name: string, from: nat, i: nat)
    requires from <= i < |kids| == |r|
    requires forall j :: 0 <= j < |kids| ==> r[j].info.name == kids[j].info.name
    requires FindKidFrom(kids, name, from) == i
    ensures FindKidFrom(r, name, from) == i
    decreases |kids| - from
  {
    if kids[from].info.name != name {
      FindKidFromUpdate(kids, r, name, from + 1, i);
    }
  }

  lemma FindKidAppend(kids: seq<Node>, n: Node, name: string)
    requires FindKid(kids, name) < 0 && n.info.name == name
    ensures FindKid(kids + [n], name) == |kids|
  {
    FindKidFromAppend(kids, n, name, 0);
  }

  lemma {:induction false} FindKidFromAppend(kids: seq<Node>, n: Node, name: string, from: nat)
    requires from <= |kids| && n.info.name == name
    requires forall i :: from <= i < |kids| ==> kids[i].info.name != name
    ensures FindKidFrom(kids + [n], name, from) == |kids|
    decreases |kids| - from
  {
    if from < |kids| {
      assert (kids + [n])[from] == kids[from];
      FindKidFromAppend(kids, n, name, from + 1);
    }
  }

  /**
   * A file whose path is already in the trie changes nothing: no node is
   * created twice and no counts are looked up again.
   */
  lemma {:induction false} InsertExisting(env: Env, cache: Cache, kids: seq<Node>, f: FileCtx, index: nat)
    requires EnvOk(env) && index < |f.segs|
    requires HasPath(kids, f.segs, index)
    ensures Insert(env, cache, kids, f, index) == (kids, cache)
    decreases |f.segs| - index
  {
    var i := FindKid(kids, f.segs[index]);
    if index + 1 < |f.segs| {
      InsertExisting(env, cache, kids[i].kids, f, index + 1);
      assert kids[i := kids[i].(kids := kids[i].kids)] == kids;
    }
  }

  // ---------------------------------------------------------------------
  // The visible tree

  /** The item of a node with its `treeData` as children. */
  function View(n: Node, depth: nat): TreeItem
    decreases n, 1
  {
    TreeItem(n.info, Children(n.kids, depth + 1))
  }

  /** A node's `treeData`: its attached kids, each pushed and sorted in when it was created. */
  function Children(kids: seq<Node>, depth: nat): seq<TreeItem>
    decreases kids, 0
  {
    if |kids| == 0 then []
    else
      var acc := Children(kids[..|kids| - 1], depth);
      var last := kids[|kids| - 1];
      if last.attached then InsertItem(acc, View(last, depth), depth) else acc
  }

  /** The visible list holds the view of every attached kid and nothing else. */
  lemma {:induction false} ChildrenMembers(kids: seq<Node>, depth: nat)
    ensures forall t :: t in Children(kids, depth) ==> exists i :: 0 <= i < |kids| && kids[i].attached && t == View(kids[i], depth)
    ensures forall i :: 0 <= i < |kids| && kids[i].attached ==> View(kids[i], depth) in Children(kids, depth)
  {
    if |kids| > 0 {
      var init := kids[..|kids| - 1];
      var last := kids[|kids| - 1];
      ChildrenMembers(init, depth);
      var acc := Children(init, depth);
      if last.attached {
        InsertItemMembers(acc, View(last, depth), depth);
      }
      forall t | t in Children(kids, depth)
        ensures exists i :: 0 <= i < |kids| && kids[i].attached && t == View(kids[i], depth)
      {
        if t in acc {
          var i :| 0 <= i < |init| && init[i].attached && t == View(init[i], depth);
          assert kids[i] == init[i];
        } else {
          assert last.attached && t == View(last, depth);
        }
      }
      forall i | 0 <= i < |kids| && kids[i].attached ensures View(kids[i], depth) in Children(kids, depth) {
        if i < |init| {
          assert kids[i] == init[i];
        }
      }
    }
  }

  /**
   * A visible tree: siblings in folder-before-file-then-name order, and
   * every item present only because overrides-only is off or its total is
   * positive, at every depth.
   */
  ghost predicate Shown(items: seq<TreeItem>, overridesOnly: bool, depth: nat)
    decreases items
  {
    && SortedSiblings(items, depth)
    && (forall i :: 0 <= i < |items| ==>
          && items[i].info.overrides.Some?
          && (!overridesOnly || items[i].info.overrides.value.total > 0)
          && ContextOk(items[i].info, depth)
          && Shown(items[i].children, overridesOnly, depth + 1))
  }

  /** The visible lists of a well-formed trie are shown trees. */
  lemma {:induction false} ChildrenShown(kids: seq<Node>, overridesOnly: bool, depth: nat)
    requires WellFormed(kids, overridesOnly, depth)
    ensures Shown(Children(kids, depth), overridesOnly, depth)
    decreases kids
  {
    if |kids| > 0 {
      var init := kids[..|kids| - 1];
      var last := kids[|kids| - 1];
      assert WellFormed(init, overridesOnly, depth) by {
        assert forall j :: 0 <= j < |init| ==> init[j] == kids[j];
      }
      ChildrenShown(init, overridesOnly, depth);
      ChildrenMembers(init, depth);
      var acc := Children(init, depth);
      if last.attached {
        var x := View(last, depth);
        ChildrenShown(last.kids, overridesOnly, depth + 1);
        forall t | t in acc ensures ContextOk(t.info, depth) && t.info.name != x.info.name {
          var i :| 0 <= i < |init| && init[i].attached && t == View(init[i], depth);
          assert init[i] == kids[i];
        }
        InsertItemSorted(acc, x, depth);
        InsertItemMembers(acc, x, depth);
        ShownInsert(acc, x, overridesOnly, depth);
      }
    }
  }

  lemma ShownInsert(acc: seq<TreeItem>, x: TreeItem, overridesOnly: bool, depth: nat)
    requires Shown(acc, overridesOnly, depth)
    requires SortedSiblings(InsertItem(acc, x, depth), depth)
    requires forall t :: t in InsertItem(acc, x, depth) <==> t in acc || t == x
    requires x.info.overrides.Some? && (!overridesOnly || x.info.overrides.value.total > 0) && ContextOk(x.info, depth)
    requires Shown(x.children, overridesOnly, depth + 1)
    ensures Shown(InsertItem(acc, x, depth), overridesOnly, depth)
  {
    var r := InsertItem(acc, x, depth);
    forall i | 0 <= i < |r|
      ensures && r[i].info.overrides.Some?
              && (!overridesOnly || r[i].info.overrides.value.total > 0)
              && ContextOk(r[i].info, depth)
              && Shown(r[i].children, overridesOnly, depth + 1)
    {
      assert r[i] in r;
      if r[i] != x {
        var j :| 0 <= j < |acc| && acc[j] == r[i];
      }
    }
  }
}
