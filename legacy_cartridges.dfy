/**
 * The `Cartridges` class of the older generation (sfccCartridges.js): no
 * caches, the older counting rules, no file Uri in the groups, and a file
 * list that is fetched afresh on every refresh.
 */
module LegacyGeneration {
  import opened Strings
  import opened Wrappers
  import opened Dicts
  import opened Constants
  import opened OverrideIndex
  import opened TreeItems
  import opened Trie
  import opened CartridgeTree
  import opened CurrentCartridges

  /** `getCartridgesPath()` of the older generation: the setting is split unconditionally. */
  function LegacyGetCartridgesPath(setting: string): seq<string> {
    WithoutIgnored(Split(setting, ':'))
  }

  /**
   * The names the older `util.js` exports (util.js:132-137). The older class
   * calls `util.debug` (sfccCartridges.js:80, 109, 131-132, 400), which is
   * not among them, so each of those calls throws.
   */
  const LEGACY_UTIL: set<string> := {"getCartridgeDirectories", "getResourcePath", "getWorkspace", "saveContext"}

  /** The same module with a `debug` that writes a log line and returns. */
  const LEGACY_UTIL_WITH_DEBUG: set<string> := LEGACY_UTIL + {"debug"}

  /**
   * `getCartridgesPath()` when the util module exports `exports`: an absent
   * setting fails at `split` (line 106), and the debug line (line 109)
   * fails unless `util.debug` exists.
   */
  function GetCartridgesPathIn(exports: set<string>, setting: Option<string>): Option<seq<string>> {
    match setting
    case None => None
    case Some(s) => if "debug" in exports then Some(LegacyGetCartridgesPath(s)) else None
  }

  /**
   * As written, reading the path fails for every setting. With `debug` in
   * place it fails only for an absent setting; an empty setting then gives
   * a path holding one empty cartridge name, unlike the current generation,
   * and any other setting the current generation's path.
   */
  lemma LegacyCartridgesPathAgrees(setting: Option<string>)
    ensures GetCartridgesPathIn(LEGACY_UTIL, setting).None?
    ensures GetCartridgesPathIn(LEGACY_UTIL_WITH_DEBUG, setting).None? <==> setting.None?
    ensures setting == Some("") ==> GetCartridgesPathIn(LEGACY_UTIL_WITH_DEBUG, setting) == Some([""])
    ensures setting.Some? && setting.value != "" ==>
              GetCartridgesPathIn(LEGACY_UTIL_WITH_DEBUG, setting) == Some(GetCartridgesPath(setting))
  {
    DebugMissing();
    if setting == Some("") {
      assert Split("", ':') == [""];
      assert WithoutIgnored([""]) == WithoutIgnored([]) + [""];
      assert LegacyGetCartridgesPath("") == [""];
    }
  }

  /** `debug` is not one of the older module's exports. */
  lemma DebugMissing()
    ensures "debug" !in LEGACY_UTIL && "debug" in LEGACY_UTIL_WITH_DEBUG
  {
    assert |"debug"| == 5;
  }

  /** The environment a legacy run works in: older counting, no Uri, nothing cached. */
  function LegacyEnv(cartridgesPath: seq<string>, workspacePath: string, iconDir: string, list: seq<string>, overridesOnly: bool): (env: Env)
    ensures EnvOk(env) && env.legacy && env.cartridgesPath == cartridgesPath && env.overridesOnly == overridesOnly
  {
    Env(true, cartridgesPath, workspacePath, iconDir, GroupFiles(list, cartridgesPath, workspacePath, false), overridesOnly, false)
  }

  /** The older `getOverrides` ignores the cache and never writes it. */
  lemma LegacyResolveKeepsCache(env: Env, cache: Cache, cartridge: string, relativeKey: string)
    requires EnvOk(env) && env.legacy
    ensures Resolve(env, cache, cartridge, relativeKey) == (Resolve(env, map[], cartridge, relativeKey).0, cache)
  {
  }

  /** So a legacy walk leaves the cache as it was. */
  lemma {:induction false} LegacyInsertKeepsCache(env: Env, cache: Cache, kids: seq<Node>, f: FileCtx, index: nat)
    requires EnvOk(env) && env.legacy && index < |f.segs|
    ensures Insert(env, cache, kids, f, index).1 == cache
    decreases |f.segs| - index
  {
    var i := FindKid(kids, f.segs[index]);
    if i >= 0 {
      if index + 1 < |f.segs| {
        LegacyInsertKeepsCache(env, cache, kids[i].kids, f, index + 1);
      }
    } else {
      var (n, c1) := NewNode(env, cache, f, index);
      assert c1 == cache;
      if index + 1 < |f.segs| {
        LegacyInsertKeepsCache(env, c1, [], f, index + 1);
      }
    }
  }

  /** Every file of the list matches the cartridge pattern. */
  predicate AllMatch(list: seq<string>) {
    forall i :: 0 <= i < |list| ==> MatchCartridge(list[i]).Some?
  }

  /**
   * `getCartridges()` AS WRITTEN: `fileParts.length` is read without checking
   * the match, so a single file outside the pattern rejects the promise and
   * no cartridges come back.
   */
  function ListCartridgesAsWritten(cartridgesPath: seq<string>, workspacePath: string, iconDir: string,
                                  found: seq<string>, overridesOnly: bool): Option<Dict<Root>> {
    var list := Prepared(found, workspacePath);
    if !AllMatch(list) then None
    else Some(ProcessCartridges(LegacyEnv(cartridgesPath, workspacePath, iconDir, list, overridesOnly), map[], cartridgesPath, list).1)
  }

  /**
   * `getCartridges()` when the util module exports `exports`: the debug lines at
   * 131-132 come before `findFiles`, so without `util.debug` nothing is
   * listed; with it the listing is the one above.
   */
  function GetCartridgesIn(exports: set<string>, cartridgesPath: seq<string>, workspacePath: string, iconDir: string,
                           found: seq<string>, overridesOnly: bool): Option<Dict<Root>> {
    if "debug" !in exports then None
    else ListCartridgesAsWritten(cartridgesPath, workspacePath, iconDir, found, overridesOnly)
  }

  /** `getCartridges()` with the check the current generation adds: files outside the pattern are skipped. */
  function ListCartridges(cartridgesPath: seq<string>, workspacePath: string, iconDir: string,
                         found: seq<string>, overridesOnly: bool): Dict<Root> {
    var list := Prepared(found, workspacePath);
    ProcessCartridges(LegacyEnv(cartridgesPath, workspacePath, iconDir, list, overridesOnly), map[], cartridgesPath, list).1
  }

  /**
   * The corrected listing always produces cartridges, agrees with the code as
   * written wherever that succeeds, and the code as written fails exactly
   * when some file is outside the pattern.
   */
  lemma ListCartridgesCorrects(cartridgesPath: seq<string>, workspacePath: string, iconDir: string,
                              found: seq<string>, overridesOnly: bool)
    ensures var asWritten := ListCartridgesAsWritten(cartridgesPath, workspacePath, iconDir, found, overridesOnly);
      && (asWritten.None? <==> exists f :: f in Prepared(found, workspacePath) && MatchCartridge(f).None?)
      && (asWritten.Some? ==> asWritten.value == ListCartridges(cartridgesPath, workspacePath, iconDir, found, overridesOnly))
  {
    var list := Prepared(found, workspacePath);
    if !AllMatch(list) {
      var i :| 0 <= i < |list| && MatchCartridge(list[i]).None?;
      assert list[i] in list;
    }
  }

  /** A corrected step over a file outside the pattern changes nothing. */
  lemma UnmatchedFileSkipped(env: Env, st: St, file: string)
    requires EnvOk(env) && st.roots.Valid() && MatchCartridge(file).None?
    ensures FileStep(env, st, file) == st
  {
  }

  /** The stripped, sorted list of one file under the workspace root. */
  lemma PreparedSingle(workspacePath: string, s: string)
    ensures Prepared([workspacePath + s], workspacePath) == [s]
  {
    ReplaceLeadingPrefix(workspacePath, s, "");
    assert "" + s == s;
    var stripped := StripWorkspace([workspacePath + s], workspacePath);
    assert |stripped| == 1 && stripped[0] == s;
    assert stripped == [s];
    var list := Prepared([workspacePath + s], workspacePath);
    assert multiset(list) == multiset{s};
    assert |list| == 1 && list[0] in multiset(list);
  }

  /** A path that carries the marker after one leading character is a file of that cartridge. */
  lemma MarkedFile(c: string, rest: string)
    ensures CartridgeFiles([[SEP] + CartridgeMarker(c) + rest], c) == [[SEP] + CartridgeMarker(c) + rest]
  {
    var m := CartridgeMarker(c);
    var s := [SEP] + m + rest;
    assert s[1..1 + |m|] == m;
    assert OccursAt(s, m, 1);
    ContainsIff(s, m);
    assert [s][..0] == [];
  }

  /**
   * A workspace whose root holds the `cartridges` folder: the stripped path
   * `/cartridges/a/cartridge/b` starts with the separator, `(.+)` has nothing to match, and the older
   * listing fails, while the corrected one lists nothing, as the current
   * generation does.
   */
  lemma RootCartridgesFolderFails(workspacePath: string)
    ensures var found := [workspacePath + ([SEP] + CartridgeMarker("a") + "/b")];
      && ListCartridgesAsWritten(["a"], workspacePath, "", found, false).None?
      && ListCartridges(["a"], workspacePath, "", found, false).keys == []
  {
    var s := [SEP] + CartridgeMarker("a") + "/b";
    PreparedSingle(workspacePath, s);
    ShortPathUnmatched(s);
    assert !AllMatch([s]);
    MarkedFile("a", "/b");
    UnmatchedOnlyFile(LegacyEnv(["a"], workspacePath, "", [s], false), "a", s);
  }

  /** A cartridge whose only file is outside the pattern gets no entry, missing or not. */
  lemma UnmatchedOnlyFile(env: Env, c: string, s: string)
    requires EnvOk(env) && MatchCartridge(s).None? && CartridgeFiles([s], c) == [s]
    ensures ProcessCartridges(env, map[], [c], [s]).1.keys == []
  {
    var st := St(map[], Empty(), [], []);
    assert FilesFold(env, st, [s]) == FileStep(env, st, s) by { assert [s][..0] == []; }
    assert [c][..0] == [];
  }

  /** Some cartridge of the path has an entry that is missing from the workspace. */
  predicate AnyMissing(names: seq<string>, roots: Dict<Root>) {
    exists i :: 0 <= i < |names| && roots.Has(names[i]) && roots.values[names[i]].missing
  }

  /**
   * The older `generateTree(cartridges)` when the util module exports `exports`:
   * the debug line of the missing branch (line 80) fails unless `util.debug`
   * exists; otherwise the items are those of `RootItems`.
   */
  function GenerateTreeIn(exports: set<string>, iconDir: string, names: seq<string>, roots: Dict<Root>): Option<seq<TreeItem>> {
    if |names| == 0 then Some([])
    else
      var rest := GenerateTreeIn(exports, iconDir, names[..|names| - 1], roots);
      var name := names[|names| - 1];
      if rest.None? then None
      else if !roots.Has(name) then rest
      else if roots.values[name].missing && "debug" !in exports then None
      else Some(rest.value + [RootItem(true, iconDir, name, roots.values[name])])
  }

  /**
   * As written, the tree fails exactly when some cartridge of the path is
   * missing, and otherwise gives the root items; with `debug` in place it
   * always gives them.
   */
  lemma {:induction false} GenerateTreeCorrects(iconDir: string, names: seq<string>, roots: Dict<Root>)
    ensures GenerateTreeIn(LEGACY_UTIL, iconDir, names, roots).None? <==> AnyMissing(names, roots)
    ensures GenerateTreeIn(LEGACY_UTIL, iconDir, names, roots).Some? ==>
              GenerateTreeIn(LEGACY_UTIL, iconDir, names, roots).value == RootItems(true, iconDir, names, roots)
    ensures GenerateTreeIn(LEGACY_UTIL_WITH_DEBUG, iconDir, names, roots) == Some(RootItems(true, iconDir, names, roots))
  {
    DebugMissing();
    if |names| > 0 {
      var init := names[..|names| - 1];
      GenerateTreeCorrects(iconDir, init, roots);
      MissingSnoc(names, roots);
    }
  }

  /** A missing entry is among all the names exactly when it is among the first ones or is the last. */
  lemma MissingSnoc(names: seq<string>, roots: Dict<Root>)
    requires |names| > 0
    ensures var last := names[|names| - 1];
      AnyMissing(names, roots) <==> AnyMissing(names[..|names| - 1], roots) || (roots.Has(last) && roots.values[last].missing)
  {
    var init := names[..|names| - 1];
    if AnyMissing(init, roots) {
      var i :| 0 <= i < |init| && roots.Has(init[i]) && roots.values[init[i]].missing;
      assert names[i] == init[i];
    }
    if AnyMissing(names, roots) {
      var i :| 0 <= i < |names| && roots.Has(names[i]) && roots.values[names[i]].missing;
      if i < |init| {
        assert init[i] == names[i];
      }
    }
  }

  /**
   * So, in the code as written, construction fails for every setting
   * (`getCartridgesPath` at line 15), the listing fails before any file is
   * looked for, and a path naming a missing cartridge fails its tree.
   */
  lemma DebugCallsThrow(setting: Option<string>, cartridgesPath: seq<string>, workspacePath: string, iconDir: string,
                        found: seq<string>, overridesOnly: bool, roots: Dict<Root>)
    ensures GetCartridgesPathIn(LEGACY_UTIL, setting).None?
    ensures GetCartridgesIn(LEGACY_UTIL, cartridgesPath, workspacePath, iconDir, found, overridesOnly).None?
    ensures AnyMissing(cartridgesPath, roots) ==> GenerateTreeIn(LEGACY_UTIL, iconDir, cartridgesPath, roots).None?
  {
    DebugMissing();
    LegacyCartridgesPathAgrees(setting);
    GenerateTreeCorrects(iconDir, cartridgesPath, roots);
  }

  class LegacyCartridges {
    var cartridgesPath: seq<string>
    const workspacePath: string
    const iconDir: string
    var treeCartridges: seq<TreeItem>

    /** The state right after construction, before the first refresh settles. */
    constructor(setting: string, workspacePath: string, iconDir: string)
      ensures cartridgesPath == LegacyGetCartridgesPath(setting)
      ensures this.workspacePath == workspacePath && this.iconDir == iconDir && treeCartridges == []
    {
      cartridgesPath := LegacyGetCartridgesPath(setting);
      this.workspacePath := workspacePath;
      this.iconDir := iconDir;
      treeCartridges := [];
    }

    /** The inner `getOverrides` of the older generation, under any cache. */
    method GetOverrides(env: Env, cartridge: string, relativeKey: string) returns (r: Overrides)
      requires EnvOk(env) && env.legacy && env.cartridgesPath == cartridgesPath
      ensures forall cache :: Resolve(env, cache, cartridge, relativeKey) == (r, cache)
    {
      r := LegacyCountOverrides(env.groups, cartridge, relativeKey, PositionOf(cartridgesPath, cartridge));
    }

    /** One file of a cartridge iteration; files outside the pattern are skipped. */
    method ProcessFile(env: Env, roots: Dict<Root>, trie: seq<Node>, touched: seq<string>, file: string)
      returns (roots': Dict<Root>, trie': seq<Node>, touched': seq<string>)
      requires EnvOk(env) && env.legacy && env.cartridgesPath == cartridgesPath && roots.Valid()
      ensures St(map[], roots', trie', touched') == FileStep(env, St(map[], roots, trie, touched), file)
    {
      roots', trie', touched' := roots, trie, touched;
      match MatchCartridge(file) {
        case None =>
        case Some(p) =>
          var c := p.cartridge;
          if !roots.Has(c) {
            var base := GetOverrides(env, c, "");
            if !env.overridesOnly || base.total > 0 {
              roots' := roots.Set(c, Root(false, Some(base), []));
            }
          }
          LegacyInsertKeepsCache(env, map[], trie, CtxOf(file, p), 0);
          trie' := Insert(env, map[], trie, CtxOf(file, p), 0).0;
          if roots'.Has(c) {
            touched' := touched + [c];
          }
      }
    }

    /** One iteration of `this.cartridgesPath.forEach(...)`. */
    method ProcessCartridge(env: Env, roots: Dict<Root>, cartridge: string, files: seq<string>) returns (result: Dict<Root>)
      requires EnvOk(env) && env.legacy && env.cartridgesPath == cartridgesPath && roots.Valid()
      ensures (map[], result) == CartridgeStep(env, map[], roots, cartridge, files)
    {
      var cf := CartridgeFiles(files, cartridge);
      result := roots;
      if |cf| == 0 && !result.Has(cartridge) && !env.overridesOnly {
        result := result.Set(cartridge, Root(true, None, []));
      }
      var trie: seq<Node> := [];
      var touched: seq<string> := [];
      ghost var st0 := St(map[], result, [], []);
      var j := 0;
      while j < |cf|
        invariant 0 <= j <= |cf| && result.Valid()
        invariant St(map[], result, trie, touched) == FilesFold(env, st0, cf[..j])
      {
        FilesFoldSnoc(env, st0, cf, j);
        result, trie, touched := ProcessFile(env, result, trie, touched, cf[j]);
        j := j + 1;
      }
      assert cf[..|cf|] == cf;
      result := SetTrees(result, touched, Children(trie, 0));
    }

    /** The cartridge-path loop of `getCartridges()`. */
    method ProcessAll(env: Env, files: seq<string>) returns (cartridges: Dict<Root>)
      requires EnvOk(env) && env.legacy && env.cartridgesPath == cartridgesPath
      ensures (map[], cartridges) == ProcessCartridges(env, map[], cartridgesPath, files)
    {
      cartridges := Empty();
      var i := 0;
      while i < |cartridgesPath|
        invariant 0 <= i <= |cartridgesPath|
        invariant (map[], cartridges) == ProcessCartridges(env, map[], cartridgesPath[..i], files)
      {
        ProcessCartridgesSnoc(env, map[], cartridgesPath, files, i);
        cartridges := ProcessCartridge(env, cartridges, cartridgesPath[i], files);
        i := i + 1;
      }
      assert cartridgesPath[..|cartridgesPath|] == cartridgesPath;
    }

    /** `getCartridges()` once the files are found, with unmatched files skipped. */
    method GetCartridges(found: seq<string>, overridesOnly: bool) returns (cartridges: Dict<Root>)
      ensures cartridges == ListCartridges(cartridgesPath, workspacePath, iconDir, found, overridesOnly)
    {
      var list := SortStrings(StripWorkspace(found, workspacePath));
      var groups := GroupAll(list, cartridgesPath, workspacePath, false);
      var env := Env(true, cartridgesPath, workspacePath, iconDir, groups, overridesOnly, false);
      assert env == LegacyEnv(cartridgesPath, workspacePath, iconDir, list, overridesOnly);
      cartridges := ProcessAll(env, list);
    }

    /** `refresh()` once its promise settles: the tree is rebuilt from the files found. */
    method Refresh(found: seq<string>, overridesOnly: bool)
      modifies this`treeCartridges
      ensures treeCartridges
           == RootItems(true, iconDir, cartridgesPath,
                        ListCartridges(cartridgesPath, workspacePath, iconDir, found, overridesOnly))
    {
      var cartridges := GetCartridges(found, overridesOnly);
      treeCartridges := GenerateRoots(true, iconDir, cartridgesPath, cartridges);
    }
  }
}
