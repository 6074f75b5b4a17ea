/**
 * The second half of `processFiles`, shared by both generations: for each
 * cartridge of the path, in order, the files under it are walked into a
 * fresh trie, root entries are created for the cartridges met, and every
 * root entry that was given this iteration's `treeData` shows it. Then
 * `generateTree` turns the entries into the root items of the view.
 */
module CartridgeTree {
  import opened Strings
  import opened Wrappers
  import opened Dicts
  import opened Constants
  import opened OverrideIndex
  import opened TreeItems
  import opened Trie

  /** `cartridges[name]`: `{missing, overrides, tree}`. */
  datatype Root = Root(missing: bool, overrides: Option<Overrides>, tree: seq<TreeItem>)

  /** The state one cartridge-path iteration threads through its files. */
  datatype St = St(cache: Cache, roots: Dict<Root>, trie: seq<Node>, touched: seq<string>)

  /** Each file path with its first occurrence of the workspace path removed. */
  function StripWorkspace(files: seq<string>, workspacePath: string): (r: seq<string>)
    ensures |r| == |files|
    ensures forall i :: 0 <= i < |files| ==> r[i] == ReplaceFirst(files[i], workspacePath, "")
  {
    seq(|files|, i requires 0 <= i < |files| => ReplaceFirst(files[i], workspacePath, ""))
  }

  /** The file list `processFiles` works on when it is not given a cached one: stripped, then sorted. */
  function Prepared(files: seq<string>, workspacePath: string): seq<string> {
    SortStrings(StripWorkspace(files, workspacePath))
  }

  /** A prepared list is sorted and holds exactly the stripped paths, as often as they were found. */
  lemma PreparedSorted(files: seq<string>, workspacePath: string)
    ensures SortedStrings(Prepared(files, workspacePath))
    ensures multiset(Prepared(files, workspacePath)) == multiset(StripWorkspace(files, workspacePath))
  {
  }

  /** `cartridges${sep}${cartridge}${sep}cartridge`, the marker of the files of one cartridge. */
  function CartridgeMarker(cartridge: string): string {
    "cartridges" + [SEP] + cartridge + [SEP] + "cartridge"
  }

  /** The files that contain the cartridge's marker `/<cartridge>/cartridge/`, in order. */
  function CartridgeFiles(files: seq<string>, cartridge: string): (r: seq<string>)
    ensures forall f :: f in r <==> f in files && Contains(f, CartridgeMarker(cartridge))
  {
    if |files| == 0 then []
    else
      var rest := CartridgeFiles(files[..|files| - 1], cartridge);
      var f := files[|files| - 1];
      assert forall g :: g in files <==> g in files[..|files| - 1] || g == f;
      if Contains(f, CartridgeMarker(cartridge)) then rest + [f] else rest
  }

  /**
   * One file of the iteration: the root entry of its cartridge is created
   * if there is none yet and overrides-only allows it, the file is walked
   * into the trie, and the entry (if any) now shows this iteration's tree.
   */
  function FileStep(env: Env, st: St, file: string): (r: St)
    requires EnvOk(env) && st.roots.Valid()
    ensures r.roots.Valid()
  {
    match MatchCartridge(file)
    case None => st
    case Some(p) =>
      var c := p.cartridge;
      var (roots, cache) :=
        if st.roots.Has(c) then (st.roots, st.cache)
        else
          var (ov, after) := Resolve(env, st.cache, c, "");
          (if !env.overridesOnly || ov.total > 0 then st.roots.Set(c, Root(false, Some(ov), [])) else st.roots, after);
      var (trie, cache') := Insert(env, cache, st.trie, CtxOf(file, p), 0);
      St(cache', roots, trie, if roots.Has(c) then st.touched + [c] else st.touched)
  }

  /** The files of one iteration, in list order. */
  function FilesFold(env: Env, st: St, files: seq<string>): (r: St)
    requires EnvOk(env) && st.roots.Valid()
    ensures r.roots.Valid()
  {
    if |files| == 0 then st
    else FileStep(env, FilesFold(env, st, files[..|files| - 1]), files[|files| - 1])
  }

  /** One more file is one more step. */
  lemma FilesFoldSnoc(env: Env, st: St, files: seq<string>, j: nat)
    requires EnvOk(env) && st.roots.Valid() && j < |files|
    ensures FilesFold(env, st, files[..j + 1]) == FileStep(env, FilesFold(env, st, files[..j]), files[j])
  {
    assert files[..j + 1][..j] == files[..j];
  }

  /** `cartridges[c].tree = treeData` for every entry that was given this iteration's list. */
  function SetTrees(roots: Dict<Root>, touched: seq<string>, tree: seq<TreeItem>): (r: Dict<Root>)
    requires roots.Valid()
    ensures r.Valid() && r.keys == roots.keys
    ensures forall k :: k in roots.values ==>
      (k in r.values && r.values[k] == if k in touched then roots.values[k].(tree := tree) else roots.values[k])
  {
    if |touched| == 0 then roots
    else
      var rest := SetTrees(roots, touched[..|touched| - 1], tree);
      var c := touched[|touched| - 1];
      assert forall k :: k in touched <==> k in touched[..|touched| - 1] || k == c;
      if rest.Has(c) then rest.Set(c, rest.values[c].(tree := tree)) else rest
  }

  /** The body of `cartridgesPath.forEach(cartridge => ...)`. */
  function CartridgeStep(env: Env, cache: Cache, roots: Dict<Root>, cartridge: string, files: seq<string>): (r: (Cache, Dict<Root>))
    requires EnvOk(env) && roots.Valid()
    ensures r.1.Valid()
  {
    var cf := CartridgeFiles(files, cartridge);
    var roots1 :=
      if |cf| == 0 && !roots.Has(cartridge) && !env.overridesOnly then roots.Set(cartridge, Root(true, None, []))
      else roots;
    var st := FilesFold(env, St(cache, roots1, [], []), cf);
    (st.cache, SetTrees(st.roots, st.touched, Children(st.trie, 0)))
  }

  /** The whole cartridge-path loop. */
  function ProcessCartridges(env: Env, cache: Cache, cartridges: seq<string>, files: seq<string>): (r: (Cache, Dict<Root>))
    requires EnvOk(env)
    ensures r.1.Valid()
  {
    if |cartridges| == 0 then (cache, Empty())
    else
      var (c1, roots) := ProcessCartridges(env, cache, cartridges[..|cartridges| - 1], files);
      CartridgeStep(env, c1, roots, cartridges[|cartridges| - 1], files)
  }

  /** One more cartridge is one more step. */
  lemma ProcessCartridgesSnoc(env: Env, cache: Cache, cartridges: seq<string>, files: seq<string>, i: nat)
    requires EnvOk(env) && i < |cartridges|
    ensures var r := ProcessCartridges(env, cache, cartridges[..i], files);
      ProcessCartridges(env, cache, cartridges[..i + 1], files) == CartridgeStep(env, r.0, r.1, cartridges[i], files)
  {
    assert cartridges[..i + 1][..i] == cartridges[..i];
  }

  // ---------------------------------------------------------------------
  // Root entries

  /**
   * A declared cartridge without files gets a missing entry when
   * overrides-only is off and it has none yet; with overrides-only on, the
   * iteration adds nothing and looks nothing up.
   */
  lemma CartridgeWithoutFiles(env: Env, cache: Cache, roots: Dict<Root>, cartridge: string, files: seq<string>)
    requires EnvOk(env) && roots.Valid()
    requires CartridgeFiles(files, cartridge) == []
    ensures !roots.Has(cartridge) && !env.overridesOnly ==>
      CartridgeStep(env, cache, roots, cartridge, files) == (cache, roots.Set(cartridge, Root(true, None, [])))
    ensures roots.Has(cartridge) || env.overridesOnly ==>
      CartridgeStep(env, cache, roots, cartridge, files) == (cache, roots)
  {
  }

  /**
   * The root entry of a file's cartridge: created with the cartridge's counts
   * exactly when overrides-only is off or its total is positive, and then
   * showing the tree of the current iteration.
   */
  lemma FileStepRoot(env: Env, st: St, file: string, p: CartridgeParts)
    requires EnvOk(env) && st.roots.Valid()
    requires MatchCartridge(file) == Some(p) && !st.roots.Has(p.cartridge)
    ensures var ov := Resolve(env, st.cache, p.cartridge, "").0;
      var r := FileStep(env, st, file);
      && (r.roots.Has(p.cartridge) <==> !env.overridesOnly || ov.total > 0)
      && (r.roots.Has(p.cartridge) ==>
            r.roots.values[p.cartridge] == Root(false, Some(ov), []) && r.touched == st.touched + [p.cartridge])
  {
  }

  /** What stays of a root entry once it exists: its missing flag and its counts. */
  predicate Keeps(before: Dict<Root>, after: Dict<Root>) {
    forall k :: k in before.values ==>
      k in after.values && after.values[k].missing == before.values[k].missing
      && after.values[k].overrides == before.values[k].overrides
  }

  lemma {:induction false} FilesFoldKeeps(env: Env, st: St, files: seq<string>)
    requires EnvOk(env) && st.roots.Valid()
    ensures Keeps(st.roots, FilesFold(env, st, files).roots)
  {
    if |files| > 0 {
      FilesFoldKeeps(env, st, files[..|files| - 1]);
    }
  }

  /** Every tree an entry shows is a visible tree of a well-formed trie. */
  ghost predicate TreesShown(roots: Dict<Root>, overridesOnly: bool) {
    forall k :: k in roots.values ==> Shown(roots.values[k].tree, overridesOnly, 0)
  }

  /** A file step keeps the trie well formed and every entry's tree shown. */
  lemma FileStepInvariant(env: Env, st: St, file: string)
    requires EnvOk(env) && st.roots.Valid()
    requires WellFormed(st.trie, env.overridesOnly, 0) && TreesShown(st.roots, env.overridesOnly)
    ensures var r := FileStep(env, st, file);
      WellFormed(r.trie, env.overridesOnly, 0) && TreesShown(r.roots, env.overridesOnly)
  {
    FileStepWellFormed(env, st, file);
    FileStepShown(env, st, file);
  }

  lemma FileStepWellFormed(env: Env, st: St, file: string)
    requires EnvOk(env) && st.roots.Valid()
    requires WellFormed(st.trie, env.overridesOnly, 0)
    ensures WellFormed(FileStep(env, st, file).trie, env.overridesOnly, 0)
  {
    match MatchCartridge(file)
    case None =>
    case Some(p) =>
      var c := p.cartridge;
      var cache := if st.roots.Has(c) then st.cache else Resolve(env, st.cache, c, "").1;
      InsertWellFormed(env, cache, st.trie, CtxOf(file, p), 0);
  }

  lemma FileStepShown(env: Env, st: St, file: string)
    requires EnvOk(env) && st.roots.Valid()
    requires TreesShown(st.roots, env.overridesOnly)
    ensures TreesShown(FileStep(env, st, file).roots, env.overridesOnly)
  {
  }

  lemma {:induction false} FilesFoldInvariant(env: Env, st: St, files: seq<string>)
    requires EnvOk(env) && st.roots.Valid()
    requires WellFormed(st.trie, env.overridesOnly, 0) && TreesShown(st.roots, env.overridesOnly)
    ensures var r := FilesFold(env, st, files);
      WellFormed(r.trie, env.overridesOnly, 0) && TreesShown(r.roots, env.overridesOnly)
  {
    if |files| > 0 {
      FilesFoldInvariant(env, st, files[..|files| - 1]);
      FileStepInvariant(env, FilesFold(env, st, files[..|files| - 1]), files[|files| - 1]);
    }
  }

  /**
   * After any number of cartridge iterations every root entry shows a tree
   * whose siblings are ordered folders first and then by name, and in which
   * nothing without overrides appears under overrides-only.
   */
  lemma {:induction false} ProcessCartridgesShown(env: Env, cache: Cache, cartridges: seq<string>, files: seq<string>)
    requires EnvOk(env)
    ensures TreesShown(ProcessCartridges(env, cache, cartridges, files).1, env.overridesOnly)
  {
    if |cartridges| > 0 {
      var (c1, roots) := ProcessCartridges(env, cache, cartridges[..|cartridges| - 1], files);
      ProcessCartridgesShown(env, cache, cartridges[..|cartridges| - 1], files);
      var c := cartridges[|cartridges| - 1];
      var cf := CartridgeFiles(files, c);
      var roots1 :=
        if |cf| == 0 && !roots.Has(c) && !env.overridesOnly then roots.Set(c, Root(true, None, []))
        else roots;
      assert Shown([], env.overridesOnly, 0);
      assert TreesShown(roots1, env.overridesOnly);
      var st0 := St(c1, roots1, [], []);
      FilesFoldInvariant(env, st0, cf);
      var st := FilesFold(env, st0, cf);
      ChildrenShown(st.trie, env.overridesOnly, 0);
      SetTreesShown(st.roots, st.touched, Children(st.trie, 0), env.overridesOnly);
    }
  }

  lemma SetTreesShown(roots: Dict<Root>, touched: seq<string>, tree: seq<TreeItem>, overridesOnly: bool)
    requires roots.Valid() && TreesShown(roots, overridesOnly) && Shown(tree, overridesOnly, 0)
    ensures TreesShown(SetTrees(roots, touched, tree), overridesOnly)
  {
  }

  // ---------------------------------------------------------------------
  // generateTree

  /** The root item `generateTree` makes for a cartridge entry. */
  function RootItem(legacy: bool, iconDir: string, name: string, root: Root): (t: TreeItem)
    ensures t.info.name == name && t.info.context == "folder" && t.children == root.tree
    ensures t.info.command.Some? <==> root.missing
    ensures root.missing ==>
      t.info.command == Some(CartridgeMissing(name)) && t.info.description == [MissingDescription]
      && t.info.tooltip == [MissingTooltip]
    ensures !root.missing && root.overrides.Some? ==>
      t.info.description == Description(root.overrides.value) && t.info.tooltip == Tooltip(root.overrides.value)
  {
    var total := if root.overrides.Some? then root.overrides.value.total else 0;
    var description := if root.overrides.Some? then Description(root.overrides.value) else [];
    var tooltip := if root.overrides.Some? then Tooltip(root.overrides.value) else [];
    if root.missing then
      TreeItem(ItemInfo(name, "folder", None, Some(Icon(legacy, iconDir, "cartridge-missing", total)), None,
                        Some(CartridgeMissing(name)), None, [MissingDescription], [MissingTooltip]), root.tree)
    else
      TreeItem(ItemInfo(name, "folder", None, Some(Icon(legacy, iconDir, "cartridge", total)), None, None, None, description, tooltip), root.tree)
  }

  /** The root items, in cartridge-path order, for the names that have an entry. */
  function RootItems(legacy: bool, iconDir: string, names: seq<string>, roots: Dict<Root>): seq<TreeItem> {
    if |names| == 0 then []
    else
      var rest := RootItems(legacy, iconDir, names[..|names| - 1], roots);
      var name := names[|names| - 1];
      if roots.Has(name) then rest + [RootItem(legacy, iconDir, name, roots.values[name])] else rest
  }

  /** The `cartridgesPath.forEach(...)` loop of `generateTree`. */
  method GenerateRoots(legacy: bool, iconDir: string, names: seq<string>, roots: Dict<Root>) returns (items: seq<TreeItem>)
    ensures items == RootItems(legacy, iconDir, names, roots)
  {
    items := [];
    var i := 0;
    while i < |names|
      invariant 0 <= i <= |names|
      invariant items == RootItems(legacy, iconDir, names[..i], roots)
    {
      assert names[..i + 1][..i] == names[..i];
      var name := names[i];
      if roots.Has(name) {
        items := items + [RootItem(legacy, iconDir, name, roots.values[name])];
      }
      i := i + 1;
    }
    assert names[..|names|] == names;
  }

  /** The names that have an entry, in order (duplicates of the path kept). */
  function Present(names: seq<string>, roots: Dict<Root>): seq<string> {
    if |names| == 0 then []
    else
      var rest := Present(names[..|names| - 1], roots);
      if roots.Has(names[|names| - 1]) then rest + [names[|names| - 1]] else rest
  }

  /** The roots of the view follow the cartridge path and show each entry's tree. */
  lemma {:induction false} RootItemsOrder(legacy: bool, iconDir: string, names: seq<string>, roots: Dict<Root>)
    ensures |RootItems(legacy, iconDir, names, roots)| == |Present(names, roots)|
    ensures forall i :: 0 <= i < |Present(names, roots)| ==>
      var name := Present(names, roots)[i];
      name in roots.values && RootItems(legacy, iconDir, names, roots)[i] == RootItem(legacy, iconDir, name, roots.values[name])
  {
    if |names| > 0 {
      RootItemsOrder(legacy, iconDir, names[..|names| - 1], roots);
    }
  }

  /** `Present` keeps the path's order and drops exactly the names without an entry. */
  lemma {:induction false} PresentMembers(names: seq<string>, roots: Dict<Root>)
    ensures forall x :: x in Present(names, roots) <==> x in names && x in roots.values
  {
    if |names| > 0 {
      PresentMembers(names[..|names| - 1], roots);
      assert forall x :: x in names <==> x in names[..|names| - 1] || x == names[|names| - 1];
    }
  }
}
