/**
 * The older generation's mapping of the cartridge path onto the cartridge
 * directories found in the workspace (`getCartridgeDirectories` of the root
 * util.js): every `.project` file marks a cartridge directory, the
 * directories are matched by their last path segment, and every cartridge
 * of the path gets one entry, in path order, flagged when no directory was
 * found for it.
 */
module CartridgeDirs {
  import opened Strings
  import opened Wrappers
  import opened Constants

  const PROJECT_SUFFIX: string := "/.project"

  /** `fsPath.replace(/\/\.project$/, '')`. */
  function StripProject(s: string): (r: string)
    ensures |s| >= |PROJECT_SUFFIX| && s[|s| - |PROJECT_SUFFIX|..] == PROJECT_SUFFIX ==> r + PROJECT_SUFFIX == s
    ensures !(|s| >= |PROJECT_SUFFIX| && s[|s| - |PROJECT_SUFFIX|..] == PROJECT_SUFFIX) ==> r == s
  {
    if |s| >= |PROJECT_SUFFIX| && s[|s| - |PROJECT_SUFFIX|..] == PROJECT_SUFFIX then s[..|s| - |PROJECT_SUFFIX|] else s
  }

  /** The marker file's directory is recovered, and only one trailing marker is taken off. */
  lemma StripProjectOfMarker(dir: string)
    ensures StripProject(dir + PROJECT_SUFFIX) == dir
  {
    var s := dir + PROJECT_SUFFIX;
    assert s[|s| - |PROJECT_SUFFIX|..] == PROJECT_SUFFIX;
    assert s[..|s| - |PROJECT_SUFFIX|] == dir;
  }

  /** The string without its trailing separators. */
  function TrimSlashes(s: string): (t: string)
    ensures |t| <= |s| && s[..|t|] == t
    ensures forall j :: |t| <= j < |s| ==> s[j] == SEP
    ensures |t| > 0 ==> t[|t| - 1] != SEP
  {
    if |s| > 0 && s[|s| - 1] == SEP then TrimSlashes(s[..|s| - 1]) else s
  }

  /**
   * The name `item.match` captures (a run of non-separators, then any
   * separators, then the end): the last non-empty segment, or `""` for a
   * string of separators only.
   */
  function SegName(s: string): string {
    LastPart(TrimSlashes(s), SEP)
  }

  /**
   * The name is what the pattern captures at its leftmost match: `s` is
   * `p + name + q` with `q` made of separators only, `name` free of them,
   * and `p` empty or ending in a separator; an empty name means that `s`
   * is made of separators only.
   */
  lemma SegNameShape(s: string)
    ensures var n := SegName(s); var t := TrimSlashes(s);
      && SEP !in n
      && |n| <= |t| && t[|t| - |n|..] == n && s[..|t|] == t
      && (forall j :: |t| <= j < |s| ==> s[j] == SEP)
      && (|n| < |t| ==> t[|t| - |n| - 1] == SEP)
      && (n == "" ==> t == "")
  {
    var t := TrimSlashes(s);
    LastPartSuffix(t, SEP);
    LastPartClean(t, SEP);
  }

  /** A directory called `name` inside `base` is matched by `name`. */
  lemma SegNameOfDir(base: string, name: string)
    requires |name| > 0 && SEP !in name
    ensures SegName(base + [SEP] + name) == name
  {
    var s := base + [SEP] + name;
    assert s[|s| - 1] == name[|name| - 1];
    assert TrimSlashes(s) == s;
    LastPartAfter(base, SEP, name);
  }

  /** The members of `xs` whose name is `d`, in order. */
  function ByName(xs: seq<string>, d: string): seq<string> {
    if |xs| == 0 then []
    else (if SegName(xs[0]) == d then [xs[0]] else []) + ByName(xs[1..], d)
  }

  /** Exactly the members named `d` are kept. */
  lemma {:induction false} ByNameMembers(xs: seq<string>, d: string, x: string)
    ensures x in ByName(xs, d) <==> x in xs && SegName(x) == d
  {
    if |xs| > 0 {
      ByNameMembers(xs[1..], d, x);
      assert x in xs <==> x == xs[0] || x in xs[1..];
    }
  }

  /** Each detected `.project` file's path with the trailing `/.project` removed: its project directory. */
  function Detected(items: seq<string>): (r: seq<string>)
    ensures |r| == |items| && forall i :: 0 <= i < |items| ==> r[i] == StripProject(items[i])
  {
    seq(|items|, i requires 0 <= i < |items| => StripProject(items[i]))
  }

  /** The detected directories whose last segment is one of the configured cartridge names, in detection order. */
  function Filtered(detected: seq<string>, cartridges: seq<string>): seq<string> {
    if |detected| == 0 then []
    else (if SegName(detected[0]) in cartridges then [detected[0]] else []) + Filtered(detected[1..], cartridges)
  }

  /** The filter keeps exactly the directories named after a cartridge of the path, in order. */
  lemma {:induction false} FilteredKeeps(detected: seq<string>, cartridges: seq<string>)
    ensures forall x :: x in Filtered(detected, cartridges) <==> x in detected && SegName(x) in cartridges
    ensures forall d :: d in cartridges ==> ByName(Filtered(detected, cartridges), d) == ByName(detected, d)
  {
    if |detected| > 0 {
      FilteredKeeps(detected[1..], cartridges);
      var head := if SegName(detected[0]) in cartridges then [detected[0]] else [];
      forall d | d in cartridges ensures ByName(Filtered(detected, cartridges), d) == ByName(detected, d) {
        ByNameAppend(head, Filtered(detected[1..], cartridges), d);
      }
      assert detected == [detected[0]] + detected[1..];
    }
  }

  lemma {:induction false} ByNameAppend(a: seq<string>, b: seq<string>, d: string)
    ensures ByName(a + b, d) == ByName(a, d) + ByName(b, d)
  {
    if |a| > 0 {
      assert (a + b)[1..] == a[1..] + b;
      assert (a + b)[0] == a[0];
      ByNameAppend(a[1..], b, d);
      var h := if SegName(a[0]) == d then [a[0]] else [];
      assert ByName(a + b, d) == h + ByName(a[1..] + b, d);
      assert ByName(a, d) == h + ByName(a[1..], d);
    } else {
      assert a + b == b;
    }
  }

  // ---------------------------------------------------------------------
  // The filter that splices while it iterates

  /**
   * The `filter` over the cloned list that also splices each match out of
   * that same list, from index `k` on, over the current `clone`: a matching item is taken
   * out of the list and the visit goes on at the next index, so the item
   * that moved into its place is never visited. Indices past the (shrunk)
   * end are absent and skipped. Gives the matches and the list left.
   */
  function CloneFilter(clone: seq<string>, c: string, k: nat): (seq<string>, seq<string>)
    decreases |clone| - k
  {
    if k >= |clone| then ([], clone)
    else if SegName(clone[k]) == c then
      var r := CloneFilter(clone[..k] + clone[k + 1..], c, k + 1);
      ([clone[k]] + r.0, r.1)
    else CloneFilter(clone, c, k + 1)
  }

  /** The items from index `k` on, none past the end. */
  function From(clone: seq<string>, k: nat): seq<string> {
    if k <= |clone| then clone[k..] else []
  }

  /**
   * Every match has the name, and the first item from `k` on with the name
   * is the first match, so there is a match exactly when such an item exists.
   */
  lemma {:induction false} CloneFilterMatches(clone: seq<string>, c: string, k: nat)
    ensures var r := CloneFilter(clone, c, k);
      && (forall x :: x in r.0 ==> SegName(x) == c)
      && (|r.0| > 0 <==> |ByName(From(clone, k), c)| > 0)
      && (|r.0| > 0 ==> r.0[0] == ByName(From(clone, k), c)[0])
    decreases |clone| - k
  {
    if k < |clone| {
      var x := clone[k];
      var after := clone[k + 1..];
      assert From(clone, k) == [x] + after;
      ByNameAppend([x], after, c);
      if SegName(x) == c {
        var next := clone[..k] + after;
        CloneFilterMatches(next, c, k + 1);
        assert ByName([x], c) == [x];
      } else {
        CloneFilterMatches(clone, c, k + 1);
        assert ByName([x], c) == [];
        assert From(clone, k + 1) == after;
      }
    }
  }

  /** Taking out an item of another name does not change the items named `d`. */
  lemma ByNameSkip(pre: seq<string>, x: string, after: seq<string>, d: string)
    requires SegName(x) != d
    ensures ByName(pre + after, d) == ByName(pre + ([x] + after), d)
  {
    ByNameAppend(pre, after, d);
    ByNameAppend(pre, [x] + after, d);
    ByNameAppend([x], after, d);
    assert ByName([x], d) == [];
  }

  /** The items of any other name stay, in order. */
  lemma {:induction false} CloneFilterKeepsOthers(clone: seq<string>, c: string, k: nat, d: string)
    requires d != c
    ensures ByName(CloneFilter(clone, c, k).1, d) == ByName(clone, d)
    decreases |clone| - k
  {
    if k < |clone| {
      if SegName(clone[k]) == c {
        var next := clone[..k] + clone[k + 1..];
        CloneFilterKeepsOthers(next, c, k + 1, d);
        CloneFilterDropStep(clone, c, k, d);
      } else {
        CloneFilterKeepsOthers(clone, c, k + 1, d);
      }
    }
  }

  /** One match taken out: the items named `d` of the shortened list are those of the list. */
  lemma CloneFilterDropStep(clone: seq<string>, c: string, k: nat, d: string)
    requires d != c && k < |clone| && SegName(clone[k]) == c
    ensures CloneFilter(clone, c, k).1 == CloneFilter(clone[..k] + clone[k + 1..], c, k + 1).1
    ensures ByName(clone[..k] + clone[k + 1..], d) == ByName(clone, d)
  {
    assert clone == clone[..k] + ([clone[k]] + clone[k + 1..]);
    ByNameSkip(clone[..k], clone[k], clone[k + 1..], d);
  }

  /** The skip: with two directories of one name side by side, the second is left in the list. */
  lemma CloneFilterSkips(x: string, y: string, c: string)
    requires SegName(x) == c && SegName(y) == c
    ensures CloneFilter([x, y], c, 0) == ([x], [y])
  {
    assert [x, y][..0] + [x, y][1..] == [y];
    assert CloneFilter([y], c, 1) == ([], [y]);
    assert [x] + [] == [x];
  }

  /** One match spliced out: the filter from `k` is the match followed by the filter of the shortened list. */
  lemma CloneFilterTakeStep(clone: seq<string>, c: string, k: nat, matches: seq<string>)
    requires k < |clone| && SegName(clone[k]) == c
    ensures var next := clone[..k] + clone[k + 1..];
      && matches + CloneFilter(clone, c, k).0 == (matches + [clone[k]]) + CloneFilter(next, c, k + 1).0
      && CloneFilter(clone, c, k).1 == CloneFilter(next, c, k + 1).1
  {
  }

  /** The filter as the source runs it, on the list it mutates. */
  method SpliceFilter(clone: seq<string>, c: string) returns (matches: seq<string>, rest: seq<string>)
    ensures (matches, rest) == CloneFilter(clone, c, 0)
  {
    matches := [];
    rest := clone;
    var k := 0;
    assert [] + CloneFilter(clone, c, 0).0 == CloneFilter(clone, c, 0).0;
    while k < |rest|
      invariant CloneFilter(clone, c, 0).0 == matches + CloneFilter(rest, c, k).0
      invariant CloneFilter(clone, c, 0).1 == CloneFilter(rest, c, k).1
      decreases |rest| - k
    {
      if SegName(rest[k]) == c {
        CloneFilterTakeStep(rest, c, k, matches);
        matches := matches + [rest[k]];
        rest := rest[..k] + rest[k + 1..];
      }
      k := k + 1;
    }
    assert CloneFilter(rest, c, k) == ([], rest);
    assert matches + [] == matches;
  }

  // ---------------------------------------------------------------------
  // The cartridge map

  /** `{name, path, missing}`; `path` is `null` for a missing cartridge. */
  datatype CartridgeDir = CartridgeDir(name: string, path: Option<string>, missing: bool)

  /** The entry of cartridge `c` from its matches. */
  function DirEntry(c: string, matches: seq<string>, workspacePath: string): (e: CartridgeDir)
    ensures e.name == c && (e.missing <==> |matches| == 0) && (e.path.None? <==> e.missing)
  {
    if |matches| == 0 then CartridgeDir(c, None, true)
    else CartridgeDir(c, Some(ReplaceFirst(matches[0], workspacePath, ".")), false)
  }

  /** A directory found under the workspace gets its path relative to it, as `./...`. */
  lemma DirEntryRelative(c: string, dir: string, others: seq<string>, workspacePath: string, rest: string)
    requires dir == workspacePath + rest
    ensures DirEntry(c, [dir] + others, workspacePath) == CartridgeDir(c, Some("." + rest), false)
  {
    ReplaceLeadingPrefix(workspacePath, rest, ".");
  }

  /** The loop over the cartridge names from the front, threading the clone through. */
  function MapDirs(cartridges: seq<string>, clone: seq<string>, workspacePath: string): seq<CartridgeDir>
  {
    if |cartridges| == 0 then []
    else
      var r := CloneFilter(clone, cartridges[0], 0);
      [DirEntry(cartridges[0], r.0, workspacePath)] + MapDirs(cartridges[1..], r.1, workspacePath)
  }

  /** One entry per cartridge, in cartridge-path order. */
  lemma {:induction false} MapDirsNames(cartridges: seq<string>, clone: seq<string>, workspacePath: string)
    ensures var m := MapDirs(cartridges, clone, workspacePath);
      |m| == |cartridges| && forall i :: 0 <= i < |m| ==> m[i].name == cartridges[i]
  {
    if |cartridges| > 0 {
      MapDirsNames(cartridges[1..], CloneFilter(clone, cartridges[0], 0).1, workspacePath);
    }
  }

  /**
   * When every cartridge is listed once, the splicing changes nothing: a
   * cartridge is missing exactly when no directory has its name, and
   * otherwise its path is the first such directory, with the workspace
   * prefix replaced by `.`.
   */
  lemma {:induction false} MapDirsDistinct(cartridges: seq<string>, clone: seq<string>, workspacePath: string)
    requires forall i, j :: 0 <= i < j < |cartridges| ==> cartridges[i] != cartridges[j]
    ensures var m := MapDirs(cartridges, clone, workspacePath);
      |m| == |cartridges| && forall i :: 0 <= i < |m| ==>
        m[i] == DirEntry(cartridges[i], ByName(clone, cartridges[i]), workspacePath)
  {
    MapDirsNames(cartridges, clone, workspacePath);
    if |cartridges| > 0 {
      var c := cartridges[0];
      var r := CloneFilter(clone, c, 0);
      CloneFilterMatches(clone, c, 0);
      forall d | d != c ensures ByName(r.1, d) == ByName(clone, d) {
        CloneFilterKeepsOthers(clone, c, 0, d);
      }
      assert From(clone, 0) == clone;
      MapDirsDistinct(cartridges[1..], r.1, workspacePath);
      var m := MapDirs(cartridges, clone, workspacePath);
      forall i | 0 <= i < |m| ensures m[i] == DirEntry(cartridges[i], ByName(clone, cartridges[i]), workspacePath) {
        if i > 0 {
          assert cartridges[i] == cartridges[1..][i - 1] && cartridges[i] != c;
        } else {
          assert DirEntry(c, r.0, workspacePath) == DirEntry(c, ByName(clone, c), workspacePath);
        }
      }
    }
  }

  /** A cartridge listed twice: the second entry finds nothing although a directory has its name. */
  lemma DuplicateCartridgeMissing(dir: string, c: string, workspacePath: string)
    requires SegName(dir) == c
    ensures |MapDirs([c, c], [dir], workspacePath)| == 2 && MapDirs([c, c], [dir], workspacePath)[1].missing
  {
    assert [dir][..0] + [dir][1..] == [];
    assert CloneFilter([], c, 1) == ([], []);
    assert [dir] + [] == [dir];
    assert CloneFilter([dir], c, 0) == ([dir], []);
    assert CloneFilter([], c, 0) == ([], []);
    assert [c, c][1..] == [c];
    assert [c][1..] == [];
    assert MapDirs([c], [], workspacePath) == [DirEntry(c, [], workspacePath)] + MapDirs([], [], workspacePath);
    assert MapDirs([c, c], [dir], workspacePath) == [DirEntry(c, [dir], workspacePath)] + MapDirs([c], [], workspacePath);
  }

  /** `missingCartridges`: the names of the missing entries, in order. */
  function MissingNames(m: seq<CartridgeDir>): seq<string>
  {
    if |m| == 0 then []
    else (if m[0].missing then [m[0].name] else []) + MissingNames(m[1..])
  }

  /** A name is in the missing list exactly when some entry of that name is missing. */
  lemma {:induction false} MissingNamesMembers(m: seq<CartridgeDir>)
    ensures forall x :: x in MissingNames(m) <==> exists e :: e in m && e.missing && e.name == x
  {
    if |m| > 0 {
      MissingNamesMembers(m[1..]);
      assert forall e :: e in m <==> e == m[0] || e in m[1..];
    }
  }

  /** What the function gives back: an error for a missing workspace, otherwise the map. */
  datatype DirsResult = NoWorkspace | Mapped(dirs: seq<CartridgeDir>, missingCartridges: seq<string>)

  /**
   * `getCartridgeDirectories(cartridges)` over the `.project` paths found
   * (`items`) and the workspace path; `None` and `""` are the falsy
   * workspace paths.
   */
  method GetCartridgeDirectories(workspacePath: Option<string>, cartridges: seq<string>, items: seq<string>) returns (res: DirsResult)
    ensures workspacePath.None? || workspacePath == Some("") <==> res.NoWorkspace?
    ensures res.Mapped? ==>
      && res.dirs == MapDirs(cartridges, Filtered(Detected(items), cartridges), workspacePath.value)
      && res.missingCartridges == MissingNames(res.dirs)
  {
    if workspacePath.None? || workspacePath.value == "" {
      return NoWorkspace;
    }
    var ws := workspacePath.value;
    var filtered := Filtered(Detected(items), cartridges);
    var clone := filtered;
    var cartridgeMap: seq<CartridgeDir> := [];
    var missingCartridges: seq<string> := [];
    var i := 0;
    while i < |cartridges|
      invariant 0 <= i <= |cartridges|
      invariant cartridgeMap + MapDirs(cartridges[i..], clone, ws) == MapDirs(cartridges, filtered, ws)
      invariant missingCartridges == MissingNames(cartridgeMap)
    {
      var cartridge := cartridges[i];
      var cartridgeFilter, rest := SpliceFilter(clone, cartridge);
      var missing := |cartridgeFilter| == 0;
      var entry := CartridgeDir(cartridge, if !missing then Some(ReplaceFirst(cartridgeFilter[0], ws, ".")) else None, missing);
      EntryFor(cartridge, cartridgeFilter, ws);
      MapDirsStep(cartridges, i, clone, ws, cartridgeMap, entry, rest);
      MissingNamesSnoc(cartridgeMap, entry);
      if missing {
        missingCartridges := missingCartridges + [cartridge];
      }
      cartridgeMap := cartridgeMap + [entry];
      clone := rest;
      i := i + 1;
    }
    res := Mapped(cartridgeMap, missingCartridges);
  }

  /** The record the loop builds for a name is its `DirEntry`. */
  lemma EntryFor(c: string, matches: seq<string>, ws: string)
    ensures CartridgeDir(c, if |matches| != 0 then Some(ReplaceFirst(matches[0], ws, ".")) else None, |matches| == 0)
            == DirEntry(c, matches, ws)
  {
  }

  /** One iteration of the loop over the cartridge names: the entry of the next name moves from the map still to build to the map built. */
  lemma MapDirsStep(cartridges: seq<string>, i: nat, clone: seq<string>, ws: string,
                    built: seq<CartridgeDir>, entry: CartridgeDir, rest: seq<string>)
    requires i < |cartridges|
    requires var r := CloneFilter(clone, cartridges[i], 0);
      rest == r.1 && entry == DirEntry(cartridges[i], r.0, ws)
    ensures built + MapDirs(cartridges[i..], clone, ws) == (built + [entry]) + MapDirs(cartridges[i + 1..], rest, ws)
  {
    assert cartridges[i..][1..] == cartridges[i + 1..];
  }

  lemma {:induction false} MissingNamesSnoc(m: seq<CartridgeDir>, e: CartridgeDir)
    ensures MissingNames(m + [e]) == MissingNames(m) + (if e.missing then [e.name] else [])
  {
    if |m| > 0 {
      assert (m + [e])[1..] == m[1..] + [e];
      MissingNamesSnoc(m[1..], e);
    } else {
      assert [e][1..] == [];
    }
  }
}
