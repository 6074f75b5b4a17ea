/**
 * The `Cartridges` class of extension/Cartridges.js: the cartridge path from
 * the settings, the two persistent caches (the prepared file list and the
 * override counts), and the tree of the Cartridges view that `refresh`
 * rebuilds from them.
 */
module CurrentCartridges {
  import opened Strings
  import opened Wrappers
  import opened Dicts
  import opened Constants
  import opened OverrideIndex
  import opened TreeItems
  import opened Trie
  import opened CartridgeTree

  const IGNORED_CARTRIDGE: string := "modules"
  const WORKSPACE_FILES: string := "workspaceFiles"

  /** The cartridge list without the ignored name `modules`. */
  function WithoutIgnored(list: seq<string>): (r: seq<string>)
    ensures forall x :: x in r <==> x in list && x != IGNORED_CARTRIDGE
  {
    if |list| == 0 then []
    else
      var rest := WithoutIgnored(list[..|list| - 1]);
      var x := list[|list| - 1];
      assert forall y :: y in list <==> y in list[..|list| - 1] || y == x;
      if x != IGNORED_CARTRIDGE then rest + [x] else rest
  }

  /** Without an ignored entry the filter keeps the list as it is, order included. */
  lemma {:induction false} WithoutIgnoredKeeps(list: seq<string>)
    requires IGNORED_CARTRIDGE !in list
    ensures WithoutIgnored(list) == list
  {
    if |list| > 0 {
      WithoutIgnoredKeeps(list[..|list| - 1]);
      assert list[..|list| - 1] + [list[|list| - 1]] == list;
    }
  }

  /** The filter distributes over concatenation, so the entries kept stay in their order. */
  lemma {:induction false} WithoutIgnoredAppend(a: seq<string>, b: seq<string>)
    ensures WithoutIgnored(a + b) == WithoutIgnored(a) + WithoutIgnored(b)
  {
    if |b| > 0 {
      WithoutIgnoredAppend(a, b[..|b| - 1]);
      assert (a + b)[..|a + b| - 1] == a + b[..|b| - 1];
    } else {
      assert a + b == a;
    }
  }

  /** `getCartridgesPath`: an absent or empty setting gives no cartridges. */
  function GetCartridgesPath(setting: Option<string>): seq<string> {
    if setting.None? || setting.value == "" then [] else WithoutIgnored(Split(setting.value, ':'))
  }

  /**
   * The path is the setting's `:`-separated entries without `modules`: no
   * entry holds a ':', and when nothing was dropped, joining them back with
   * ':' gives the setting.
   */
  lemma GetCartridgesPathSplits(setting: string)
    requires setting != ""
    ensures forall x :: x in GetCartridgesPath(Some(setting)) ==> ':' !in x && x != IGNORED_CARTRIDGE
    ensures IGNORED_CARTRIDGE !in Split(setting, ':') ==> Join(GetCartridgesPath(Some(setting)), [':']) == setting
  {
    SplitParts(setting, ':');
    JoinSplit(setting, ':');
    if IGNORED_CARTRIDGE !in Split(setting, ':') {
      WithoutIgnoredKeeps(Split(setting, ':'));
    }
  }

  class Cartridges {
    var cartridgesPath: seq<string>
    const workspacePath: string
    const iconDir: string
    var cacheFiles: map<string, seq<string>>
    var cacheOverrides: Cache
    var treeCartridges: seq<TreeItem>

    /**
     * The state right after construction: the path read from the setting,
     * the caches as persisted by earlier sessions, no tree yet.
     */
    constructor(setting: Option<string>, workspacePath: string, iconDir: string,
                storedFiles: map<string, seq<string>>, storedOverrides: Cache)
      ensures cartridgesPath == GetCartridgesPath(setting)
      ensures this.workspacePath == workspacePath && this.iconDir == iconDir
      ensures cacheFiles == storedFiles && cacheOverrides == storedOverrides && treeCartridges == []
    {
      cartridgesPath := GetCartridgesPath(setting);
      this.workspacePath := workspacePath;
      this.iconDir := iconDir;
      cacheFiles := storedFiles;
      cacheOverrides := storedOverrides;
      treeCartridges := [];
    }

    /** The run environment of `processFiles` over a prepared list. */
    function RunEnv(files: seq<string>, overridesOnly: bool, skipCacheWrite: bool): (env: Env)
      reads this
      ensures EnvOk(env) && !env.legacy && env.cartridgesPath == cartridgesPath
    {
      Env(false, cartridgesPath, workspacePath, iconDir, GroupFiles(files, cartridgesPath, workspacePath, true),
          overridesOnly, skipCacheWrite)
    }

    /** The inner `getOverrides`, with `cacheOverrides` as the counts cache. */
    method GetOverrides(env: Env, cartridge: string, relativeKey: string) returns (r: Overrides)
      requires EnvOk(env) && !env.legacy && env.cartridgesPath == cartridgesPath
      modifies this`cacheOverrides
      ensures (r, cacheOverrides) == Resolve(env, old(cacheOverrides), cartridge, relativeKey)
    {
      var key := CacheKey(cartridge, relativeKey);
      if key in cacheOverrides {
        r := cacheOverrides[key];
        return;
      }
      r := CountOverrides(env.groups, cartridge, relativeKey, PositionOf(cartridgesPath, cartridge));
      if !env.skipCacheWrite {
        cacheOverrides := cacheOverrides[key := r];
      }
    }

    /** The start of `processFiles`: a fresh list is stripped, sorted and stored; a cached one is used as is. */
    method PrepareFiles(files: seq<string>, skipCacheWrite: bool) returns (clone: seq<string>)
      modifies this`cacheFiles
      ensures skipCacheWrite ==> clone == files && cacheFiles == old(cacheFiles)
      ensures !skipCacheWrite ==>
        clone == Prepared(files, workspacePath) && cacheFiles == old(cacheFiles)[WORKSPACE_FILES := clone]
    {
      if !skipCacheWrite {
        clone := Prepared(files, workspacePath);
        cacheFiles := cacheFiles[WORKSPACE_FILES := clone];
      } else {
        clone := files;
      }
    }

    /** One file of the `reduce` over a cartridge's files. */
    method ProcessFile(env: Env, roots: Dict<Root>, trie: seq<Node>, touched: seq<string>, file: string)
      returns (roots': Dict<Root>, trie': seq<Node>, touched': seq<string>)
      requires EnvOk(env) && !env.legacy && env.cartridgesPath == cartridgesPath && roots.Valid()
      modifies this`cacheOverrides
      ensures St(cacheOverrides, roots', trie', touched') == FileStep(env, St(old(cacheOverrides), roots, trie, touched), file)
    {
      roots', trie', touched' := roots, trie, touched;
      match MatchCartridge(file) {
        case None =>
        case Some(p) =>
          var c := p.cartridge;
          if !roots.Has(c) {
            var base := GetOverrides(env, c, "");
            if !env.overridesOnly || base.total > 0 {
              roots' := roots.Set(c, Root(false, Some(base), []));
            }
          }
          var (walked, after) := Insert(env, cacheOverrides, trie, CtxOf(file, p), 0);
          trie' := walked;
          cacheOverrides := after;
          if roots'.Has(c) {
            touched' := touched + [c];
          }
      }
    }

    /** One iteration of `cartridgesPath.forEach(...)` in `processFiles`. */
    method ProcessCartridge(env: Env, roots: Dict<Root>, cartridge: string, files: seq<string>) returns (result: Dict<Root>)
      requires EnvOk(env) && !env.legacy && env.cartridgesPath == cartridgesPath && roots.Valid()
      modifies this`cacheOverrides
      ensures (cacheOverrides, result) == CartridgeStep(env, old(cacheOverrides), roots, cartridge, files)
    {
      var cf := CartridgeFiles(files, cartridge);
      result := roots;
      if |cf| == 0 && !result.Has(cartridge) && !env.overridesOnly {
        result := result.Set(cartridge, Root(true, None, []));
      }
      var trie: seq<Node> := [];
      var touched: seq<string> := [];
      ghost var st0 := St(cacheOverrides, result, [], []);
      var j := 0;
      while j < |cf|
        invariant 0 <= j <= |cf| && result.Valid()
        invariant St(cacheOverrides, result, trie, touched) == FilesFold(env, st0, cf[..j])
      {
        FilesFoldSnoc(env, st0, cf, j);
        result, trie, touched := ProcessFile(env, result, trie, touched, cf[j]);
        j := j + 1;
      }
      assert cf[..|cf|] == cf;
      result := SetTrees(result, touched, Children(trie, 0));
    }

    /** The cartridge-path loop of `processFiles`. */
    method ProcessAll(env: Env, files: seq<string>) returns (cartridges: Dict<Root>)
      requires EnvOk(env) && !env.legacy && env.cartridgesPath == cartridgesPath
      modifies this`cacheOverrides
      ensures (cacheOverrides, cartridges) == ProcessCartridges(env, old(cacheOverrides), cartridgesPath, files)
    {
      cartridges := Empty();
      var i := 0;
      while i < |cartridgesPath|
        invariant 0 <= i <= |cartridgesPath|
        invariant (cacheOverrides, cartridges) == ProcessCartridges(env, old(cacheOverrides), cartridgesPath[..i], files)
      {
        ProcessCartridgesSnoc(env, old(cacheOverrides), cartridgesPath, files, i);
        cartridges := ProcessCartridge(env, cartridges, cartridgesPath[i], files);
        i := i + 1;
      }
      assert cartridgesPath[..|cartridgesPath|] == cartridgesPath;
    }

    /**
     * `processFiles(files, skipCacheWrite)`: prepare the list, group it, then
     * build the entry of every cartridge of the path in order.
     */
    method ProcessFiles(files: seq<string>, skipCacheWrite: bool, overridesOnly: bool) returns (cartridges: Dict<Root>)
      modifies this`cacheFiles, this`cacheOverrides
      ensures var clone := if skipCacheWrite then files else Prepared(files, workspacePath);
        && cacheFiles == (if skipCacheWrite then old(cacheFiles) else old(cacheFiles)[WORKSPACE_FILES := clone])
        && (cacheOverrides, cartridges)
           == ProcessCartridges(RunEnv(clone, overridesOnly, skipCacheWrite), old(cacheOverrides), cartridgesPath, clone)
    {
      var clone := PrepareFiles(files, skipCacheWrite);
      var groups := GroupAll(clone, cartridgesPath, workspacePath, true);
      var env := Env(false, cartridgesPath, workspacePath, iconDir, groups, overridesOnly, skipCacheWrite);
      assert env == RunEnv(clone, overridesOnly, skipCacheWrite);
      cartridges := ProcessAll(env, clone);
    }

    /**
     * `getCartridges()` followed by `generateTree`: a stored file list is
     * reused with cache writes skipped; otherwise the files found are
     * prepared and stored.
     */
    method Reload(found: seq<string>, overridesOnly: bool)
      modifies this`cacheFiles, this`cacheOverrides, this`treeCartridges
      ensures var cached := WORKSPACE_FILES in old(cacheFiles);
        var list := if cached then old(cacheFiles)[WORKSPACE_FILES] else Prepared(found, workspacePath);
        var run := ProcessCartridges(RunEnv(list, overridesOnly, cached), old(cacheOverrides), cartridgesPath, list);
        && cacheFiles == (if cached then old(cacheFiles) else old(cacheFiles)[WORKSPACE_FILES := list])
        && cacheOverrides == run.0
        && treeCartridges == RootItems(false, iconDir, cartridgesPath, run.1)
    {
      var cached := WORKSPACE_FILES in cacheFiles;
      var files := if cached then cacheFiles[WORKSPACE_FILES] else found;
      var cartridges := ProcessFiles(files, cached, overridesOnly);
      treeCartridges := GenerateRoots(false, iconDir, cartridgesPath, cartridges);
    }

    /** `refresh(useCache)` once its promise settles: without the cache both caches are flushed first. */
    method Refresh(useCache: bool, found: seq<string>, overridesOnly: bool)
      modifies this`cacheFiles, this`cacheOverrides, this`treeCartridges
      ensures var files0 := if useCache then old(cacheFiles) else map[];
        var counts0 := if useCache then old(cacheOverrides) else map[];
        var cached := WORKSPACE_FILES in files0;
        var list := if cached then files0[WORKSPACE_FILES] else Prepared(found, workspacePath);
        var run := ProcessCartridges(RunEnv(list, overridesOnly, cached), counts0, cartridgesPath, list);
        && cacheFiles == (if cached then files0 else files0[WORKSPACE_FILES := list])
        && cacheOverrides == run.0
        && treeCartridges == RootItems(false, iconDir, cartridgesPath, run.1)
    {
      if !useCache {
        cacheFiles := map[];
        cacheOverrides := map[];
      }
      Reload(found, overridesOnly);
    }
  }

  /**
   * A refresh that found no stored list leaves one behind, so the next
   * cached refresh works on exactly the prepared list of the first.
   */
  lemma StoredListReused(files0: map<string, seq<string>>, found: seq<string>, workspacePath: string)
    requires WORKSPACE_FILES !in files0
    ensures var after := files0[WORKSPACE_FILES := Prepared(found, workspacePath)];
      WORKSPACE_FILES in after && after[WORKSPACE_FILES] == Prepared(found, workspacePath)
      && SortedStrings(after[WORKSPACE_FILES])
  {
    PreparedSorted(found, workspacePath);
  }
}
