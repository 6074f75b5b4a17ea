/**
 * The override index both generations build: every cartridge file is filed
 * under its path relative to `<cartridge>/cartridge/`, each group kept in
 * cartridge-path order, and `getOverrides` derives from the groups how often
 * a cartridge, folder or file is overridden from above, overrides something
 * below, and takes part in an override at all.
 */
module OverrideIndex {
  import opened Strings
  import opened Wrappers
  import opened Dicts
  import opened Constants

  /** One file of one cartridge: `{cartridge, file, position, resourceUri}`. */
  datatype Occurrence = Occurrence(cartridge: string, file: string, position: int, resource: Option<string>)

  /** The counts a tree item shows. */
  datatype Overrides = Overrides(above: nat, below: nat, total: nat)

  /** `list.indexOf(x)`. */
  function PositionOf(list: seq<string>, x: string): (r: int)
    ensures -1 <= r < |list|
    ensures r >= 0 ==> list[r] == x
    ensures r == -1 <==> x !in list
    ensures forall i :: 0 <= i < |list| && (r == -1 || i < r) ==> list[i] != x
  {
    if |list| == 0 then -1
    else if list[0] == x then 0
    else
      var k := PositionOf(list[1..], x);
      assert list == [list[0]] + list[1..];
      if k == -1 then -1 else k + 1
  }

  predicate SortedByPosition(g: seq<Occurrence>) {
    forall i, j :: 0 <= i < j < |g| ==> g[i].position <= g[j].position
  }

  /**
   * Pushing `o` onto a sorted group and sorting the group again by
   * position. The sort is stable, so the new element moves back from the end
   * past exactly the elements whose position is larger.
   */
  function InsertByPosition(g: seq<Occurrence>, o: Occurrence): seq<Occurrence> {
    if |g| == 0 || g[|g| - 1].position <= o.position then g + [o]
    else InsertByPosition(g[..|g| - 1], o) + [g[|g| - 1]]
  }

  /** Where the new element lands: after the last element whose position is not larger. */
  function InsertionPoint(g: seq<Occurrence>, o: Occurrence): (k: nat)
    ensures k <= |g|
    ensures forall i :: k <= i < |g| ==> g[i].position > o.position
    ensures k > 0 ==> g[k - 1].position <= o.position
  {
    if |g| == 0 || g[|g| - 1].position <= o.position then |g|
    else InsertionPoint(g[..|g| - 1], o)
  }

  /** The new element is placed at the insertion point and nothing else moves. */
  lemma {:induction false} InsertByPositionShape(g: seq<Occurrence>, o: Occurrence)
    ensures var k := InsertionPoint(g, o); InsertByPosition(g, o) == g[..k] + [o] + g[k..]
  {
    if |g| > 0 && g[|g| - 1].position > o.position {
      var init := g[..|g| - 1];
      InsertByPositionShape(init, o);
      var k := InsertionPoint(init, o);
      assert init[..k] == g[..k];
      assert init[k..] + [g[|g| - 1]] == g[k..];
    }
  }

  /** The inserted group is sorted and holds the old elements plus the new one. */
  lemma InsertByPositionSorted(g: seq<Occurrence>, o: Occurrence)
    requires SortedByPosition(g)
    ensures SortedByPosition(InsertByPosition(g, o))
    ensures multiset(InsertByPosition(g, o)) == multiset(g) + multiset{o}
  {
    InsertByPositionShape(g, o);
    var k := InsertionPoint(g, o);
    InsertAtPointSorted(g, o, k);
    SplitAt(g, k);
    MultisetAround(InsertByPosition(g, o), g[..k], o, g[k..], g);
  }

  lemma SplitAt<T>(g: seq<T>, k: nat)
    requires k <= |g|
    ensures g == g[..k] + g[k..]
  {
  }

  lemma MultisetAround<T>(r: seq<T>, a: seq<T>, x: T, b: seq<T>, g: seq<T>)
    requires r == a + [x] + b && g == a + b
    ensures multiset(r) == multiset(g) + multiset{x}
  {
  }

  lemma InsertAtPointSorted(g: seq<Occurrence>, o: Occurrence, k: nat)
    requires SortedByPosition(g) && k == InsertionPoint(g, o)
    ensures SortedByPosition(g[..k] + [o] + g[k..])
  {
    var pre, post := g[..k], g[k..];
    forall i | 0 <= i < |pre| ensures pre[i].position <= o.position {
      assert pre[i] == g[i] && g[i].position <= g[k - 1].position;
    }
    forall i | 0 <= i < |post| ensures post[i].position > o.position {
      assert post[i] == g[k + i];
    }
    SortedSlices(g, k);
    SortedAround(pre, o, post);
  }

  lemma SortedSlices(g: seq<Occurrence>, k: nat)
    requires SortedByPosition(g) && k <= |g|
    ensures SortedByPosition(g[..k]) && SortedByPosition(g[k..])
  {
    var post := g[k..];
    forall i, j | 0 <= i < j < |post| ensures post[i].position <= post[j].position {
      assert post[i] == g[k + i] && post[j] == g[k + j];
    }
  }

  /** An element between a sorted part not above it and a sorted part above it keeps the order. */
  lemma SortedAround(pre: seq<Occurrence>, o: Occurrence, post: seq<Occurrence>)
    requires SortedByPosition(pre) && SortedByPosition(post)
    requires forall i :: 0 <= i < |pre| ==> pre[i].position <= o.position
    requires forall i :: 0 <= i < |post| ==> post[i].position > o.position
    ensures SortedByPosition(pre + [o] + post)
  {
    var r := pre + [o] + post;
    var n := |pre|;
    forall i, j | 0 <= i < j < |r| ensures r[i].position <= r[j].position {
      if j < n {
        assert r[i] == pre[i] && r[j] == pre[j];
      } else if j == n {
        assert r[i] == pre[i];
      } else if i < n {
        assert r[i] == pre[i] && r[j] == post[j - n - 1];
      } else if i == n {
        assert r[j] == post[j - n - 1];
      } else {
        assert r[i] == post[i - n - 1] && r[j] == post[j - n - 1];
      }
    }
  }

  /** The groups: relative path to its occurrences, keys in the order they were first seen. */
  type Groups = Dict<seq<Occurrence>>

  ghost predicate GroupsSorted(d: Groups) {
    forall k :: k in d.values ==> SortedByPosition(d.values[k])
  }

  /** Filing one occurrence under `rel`: a new group `[o]`, or push-and-sort into the existing one. */
  function AddOccurrence(d: Groups, rel: string, o: Occurrence): (r: Groups)
    requires d.Valid() && GroupsSorted(d)
    ensures r.Valid() && GroupsSorted(r)
    ensures r.keys == if rel in d.values then d.keys else d.keys + [rel]
    ensures forall k :: k in d.values && k != rel ==> k in r.values && r.values[k] == d.values[k]
    ensures rel in r.values
    ensures multiset(r.values[rel]) == (if rel in d.values then multiset(d.values[rel]) else multiset{}) + multiset{o}
  {
    if rel in d.values then
      InsertByPositionSorted(d.values[rel], o);
      d.Set(rel, InsertByPosition(d.values[rel], o))
    else
      d.Set(rel, [o])
  }

  /** What a cartridge file contributes: its relative path and its occurrence, if the path matches. */
  function FileOccurrence(file: string, cartridgesPath: seq<string>, resource: Option<string>): Option<(string, Occurrence)> {
    match MatchCartridge(file)
    case None => None
    case Some(p) => Some((p.relativePath, Occurrence(p.cartridge, file, PositionOf(cartridgesPath, p.cartridge), resource)))
  }

  /** The resource of a file: `Uri.file(workspacePath + file)` in the current generation, none in the older one. */
  function ResourceOf(workspacePath: string, file: string, withUri: bool): Option<string> {
    if withUri then Some(workspacePath + file) else None
  }

  /** The grouping loop over a file list (non-matching files are skipped). */
  function GroupFiles(files: seq<string>, cartridgesPath: seq<string>, workspacePath: string, withUri: bool): (r: Groups)
    ensures r.Valid() && GroupsSorted(r)
  {
    if |files| == 0 then Empty()
    else
      var d := GroupFiles(files[..|files| - 1], cartridgesPath, workspacePath, withUri);
      var file := files[|files| - 1];
      match FileOccurrence(file, cartridgesPath, ResourceOf(workspacePath, file, withUri))
      case None => d
      case Some((rel, o)) => AddOccurrence(d, rel, o)
  }

  /** Reference definition: the occurrences, in file order, of the files whose relative path is `rel`. */
  function OccurrencesFor(files: seq<string>, rel: string, cartridgesPath: seq<string>, workspacePath: string, withUri: bool): seq<Occurrence> {
    if |files| == 0 then []
    else
      var earlier := OccurrencesFor(files[..|files| - 1], rel, cartridgesPath, workspacePath, withUri);
      var file := files[|files| - 1];
      match FileOccurrence(file, cartridgesPath, ResourceOf(workspacePath, file, withUri))
      case Some((rel', o)) => if rel' == rel then earlier + [o] else earlier
      case None => earlier
  }

  /**
   * Grouping files every matching file once under its relative path, and
   * nothing else: a group exists exactly for the relative paths some file
   * has, and it is a sorted permutation of that path's occurrences.
   */
  lemma {:induction false} GroupFilesContents(files: seq<string>, cartridgesPath: seq<string>, workspacePath: string, withUri: bool, rel: string)
    ensures var d := GroupFiles(files, cartridgesPath, workspacePath, withUri);
      && (rel in d.values <==> |OccurrencesFor(files, rel, cartridgesPath, workspacePath, withUri)| > 0)
      && (rel in d.values ==>
            SortedByPosition(d.values[rel])
            && multiset(d.values[rel]) == multiset(OccurrencesFor(files, rel, cartridgesPath, workspacePath, withUri)))
  {
    if |files| > 0 {
      GroupFilesContents(files[..|files| - 1], cartridgesPath, workspacePath, withUri, rel);
    }
  }

  /** The `filesClone.forEach(...)` loop that fills `cartridgeFileData`. */
  method GroupAll(files: seq<string>, cartridgesPath: seq<string>, workspacePath: string, withUri: bool) returns (d: Groups)
    ensures d == GroupFiles(files, cartridgesPath, workspacePath, withUri)
  {
    d := Empty();
    var i := 0;
    while i < |files|
      invariant 0 <= i <= |files|
      invariant d == GroupFiles(files[..i], cartridgesPath, workspacePath, withUri)
    {
      assert files[..i + 1][..i] == files[..i];
      var file := files[i];
      match FileOccurrence(file, cartridgesPath, ResourceOf(workspacePath, file, withUri)) {
        case None =>
        case Some((rel, o)) => d := AddOccurrence(d, rel, o);
      }
      i := i + 1;
    }
    assert files[..|files|] == files;
  }

  /** A file that does not match the cartridge pattern leaves the groups as they were. */
  lemma GroupFilesSkips(files: seq<string>, file: string, cartridgesPath: seq<string>, workspacePath: string, withUri: bool)
    requires MatchCartridge(file).None?
    ensures GroupFiles(files + [file], cartridgesPath, workspacePath, withUri)
         == GroupFiles(files, cartridgesPath, workspacePath, withUri)
  {
    assert (files + [file])[..|files|] == files;
  }

  // ---------------------------------------------------------------------
  // Counting

  /** `relativeKey && override.file ? … : …`: an empty key (or null) makes every file count. */
  predicate Owned(o: Occurrence, cartridge: string, relativeKey: string) {
    o.cartridge == cartridge && (relativeKey != "" && o.file != "" ==> Contains(o.file, relativeKey))
  }

  /** A file of another cartridge above (`position <` ours) or below (`position >` ours). */
  predicate Rival(o: Occurrence, cartridge: string, position: int, above: bool) {
    o.cartridge != cartridge && (if above then o.position < position else o.position > position)
  }

  function OwnedCount(g: seq<Occurrence>, cartridge: string, relativeKey: string): nat {
    if |g| == 0 then 0
    else OwnedCount(g[..|g| - 1], cartridge, relativeKey) + (if Owned(g[|g| - 1], cartridge, relativeKey) then 1 else 0)
  }

  function RivalCount(g: seq<Occurrence>, cartridge: string, position: int, above: bool): nat {
    if |g| == 0 then 0
    else RivalCount(g[..|g| - 1], cartridge, position, above) + (if Rival(g[|g| - 1], cartridge, position, above) then 1 else 0)
  }

  /** The matches one group contributes: a group of one file is never an override. */
  function MatchCount(g: seq<Occurrence>, cartridge: string, relativeKey: string): nat {
    if |g| > 1 then OwnedCount(g, cartridge, relativeKey) else 0
  }

  /** The groups in key order. */
  function GroupsOf(keys: seq<string>, values: map<string, seq<Occurrence>>): seq<seq<Occurrence>>
    requires forall k :: k in keys ==> k in values
  {
    if |keys| == 0 then [] else GroupsOf(keys[..|keys| - 1], values) + [values[keys[|keys| - 1]]]
  }

  /** `total`: all matching occurrences. */
  function Total(gs: seq<seq<Occurrence>>, cartridge: string, relativeKey: string): nat {
    if |gs| == 0 then 0
    else Total(gs[..|gs| - 1], cartridge, relativeKey) + MatchCount(gs[|gs| - 1], cartridge, relativeKey)
  }

  /** Current `above`/`below`: every match adds the number of rivals on that side of its group. */
  function Spread(gs: seq<seq<Occurrence>>, cartridge: string, relativeKey: string, position: int, above: bool): nat {
    if |gs| == 0 then 0
    else
      var g := gs[|gs| - 1];
      Spread(gs[..|gs| - 1], cartridge, relativeKey, position, above)
        + MatchCount(g, cartridge, relativeKey) * RivalCount(g, cartridge, position, above)
  }

  /** Older `above`/`below`: every match adds one when its group has any rival on that side. */
  function LegacySpread(gs: seq<seq<Occurrence>>, cartridge: string, relativeKey: string, position: int, above: bool): nat {
    if |gs| == 0 then 0
    else
      var g := gs[|gs| - 1];
      LegacySpread(gs[..|gs| - 1], cartridge, relativeKey, position, above)
        + (if RivalCount(g, cartridge, position, above) > 0 then MatchCount(g, cartridge, relativeKey) else 0)
  }

  function Counts(gs: seq<seq<Occurrence>>, cartridge: string, relativeKey: string, position: int): Overrides {
    Overrides(Spread(gs, cartridge, relativeKey, position, true), Spread(gs, cartridge, relativeKey, position, false),
              Total(gs, cartridge, relativeKey))
  }

  function LegacyCounts(gs: seq<seq<Occurrence>>, cartridge: string, relativeKey: string, position: int): Overrides {
    Overrides(LegacySpread(gs, cartridge, relativeKey, position, true), LegacySpread(gs, cartridge, relativeKey, position, false),
              Total(gs, cartridge, relativeKey))
  }

  /** The rivals summed over a list of matched keys (`matches.forEach`). */
  function KeysSpread(matches: seq<string>, values: map<string, seq<Occurrence>>, cartridge: string, position: int, above: bool): nat
    requires forall k :: k in matches ==> k in values
  {
    if |matches| == 0 then 0
    else KeysSpread(matches[..|matches| - 1], values, cartridge, position, above)
           + RivalCount(values[matches[|matches| - 1]], cartridge, position, above)
  }

  /** The older sum: one for every matched key whose group has a rival on that side. */
  function KeysLegacySpread(matches: seq<string>, values: map<string, seq<Occurrence>>, cartridge: string, position: int, above: bool): nat
    requires forall k :: k in matches ==> k in values
  {
    if |matches| == 0 then 0
    else KeysLegacySpread(matches[..|matches| - 1], values, cartridge, position, above)
           + (if RivalCount(values[matches[|matches| - 1]], cartridge, position, above) > 0 then 1 else 0)
  }

  lemma GroupsOfSnoc(keys: seq<string>, values: map<string, seq<Occurrence>>, i: nat)
    requires i < |keys| && forall k :: k in keys ==> k in values
    ensures GroupsOf(keys[..i + 1], values) == GroupsOf(keys[..i], values) + [values[keys[i]]]
  {
    assert keys[..i + 1][..i] == keys[..i];
  }

  /** How many occurrences of another cartridge lie on the given side of `position`. */
  method CountRivals(g: seq<Occurrence>, cartridge: string, position: int, above: bool) returns (n: nat)
    ensures n == RivalCount(g, cartridge, position, above)
  {
    n := 0;
    var j := 0;
    while j < |g|
      invariant 0 <= j <= |g|
      invariant n == RivalCount(g[..j], cartridge, position, above)
    {
      assert g[..j + 1][..j] == g[..j];
      if g[j].cartridge != cartridge && (if above then g[j].position < position else g[j].position > position) {
        n := n + 1;
      }
      j := j + 1;
    }
    assert g[..|g|] == g;
  }

  /** `n` copies of `k`. */
  function Repeat(k: string, n: nat): (r: seq<string>)
    ensures |r| == n && forall x :: x in r ==> x == k
  {
    if n == 0 then [] else Repeat(k, n - 1) + [k]
  }

  /** Reference definition of `matches`: each group's key once per match it holds, in key order. */
  function MatchedKeys(keys: seq<string>, values: map<string, seq<Occurrence>>, cartridge: string, relativeKey: string): (r: seq<string>)
    requires forall k :: k in keys ==> k in values
    ensures forall k :: k in r ==> k in keys
  {
    if |keys| == 0 then []
    else
      var k := keys[|keys| - 1];
      MatchedKeys(keys[..|keys| - 1], values, cartridge, relativeKey) + Repeat(k, MatchCount(values[k], cartridge, relativeKey))
  }

  /** Summing the rivals of `n` more copies of one key adds `n` times that group's rivals. */
  lemma {:induction false} KeysSpreadRepeat(ms: seq<string>, k: string, n: nat, values: map<string, seq<Occurrence>>,
                                            cartridge: string, position: int, above: bool)
    requires forall x :: x in ms ==> x in values
    requires k in values
    ensures KeysSpread(ms + Repeat(k, n), values, cartridge, position, above)
         == KeysSpread(ms, values, cartridge, position, above) + n * RivalCount(values[k], cartridge, position, above)
    decreases n, 1
  {
    if n > 0 {
      KeysSpreadRepeatStep(ms, k, n - 1, values, cartridge, position, above);
    } else {
      assert ms + Repeat(k, n) == ms;
    }
  }

  lemma {:induction false} KeysSpreadRepeatStep(ms: seq<string>, k: string, m: nat, values: map<string, seq<Occurrence>>,
                                                cartridge: string, position: int, above: bool)
    requires forall x :: x in ms ==> x in values
    requires k in values
    ensures KeysSpread(ms + Repeat(k, m + 1), values, cartridge, position, above)
         == KeysSpread(ms, values, cartridge, position, above) + (m + 1) * RivalCount(values[k], cartridge, position, above)
    decreases m + 1, 0
  {
    var c := RivalCount(values[k], cartridge, position, above);
    assert KeysSpread(ms + Repeat(k, m), values, cartridge, position, above)
        == KeysSpread(ms, values, cartridge, position, above) + m * c by {
      KeysSpreadRepeat(ms, k, m, values, cartridge, position, above);
    }
    var xs := ms + Repeat(k, m);
    assert ms + Repeat(k, m + 1) == xs + [k];
    KeysSpreadAppend(xs, k, values, cartridge, position, above);
    MulSucc(m, c);
  }

  lemma MulSucc(m: nat, c: nat)
    ensures (m + 1) * c == m * c + c
  {
  }

  /** The older sum over `n` more copies of one key adds `n` when the group has a rival on that side. */
  lemma {:induction false} KeysLegacySpreadRepeat(ms: seq<string>, k: string, n: nat, values: map<string, seq<Occurrence>>,
                                                  cartridge: string, position: int, above: bool)
    requires forall x :: x in ms ==> x in values
    requires k in values
    ensures KeysLegacySpread(ms + Repeat(k, n), values, cartridge, position, above)
         == KeysLegacySpread(ms, values, cartridge, position, above)
            + (if RivalCount(values[k], cartridge, position, above) > 0 then n else 0)
    decreases n, 1
  {
    if n > 0 {
      KeysLegacySpreadRepeatStep(ms, k, n - 1, values, cartridge, position, above);
    } else {
      assert ms + Repeat(k, n) == ms;
    }
  }

  lemma {:induction false} KeysLegacySpreadRepeatStep(ms: seq<string>, k: string, m: nat, values: map<string, seq<Occurrence>>,
                                                      cartridge: string, position: int, above: bool)
    requires forall x :: x in ms ==> x in values
    requires k in values
    ensures KeysLegacySpread(ms + Repeat(k, m + 1), values, cartridge, position, above)
         == KeysLegacySpread(ms, values, cartridge, position, above)
            + (if RivalCount(values[k], cartridge, position, above) > 0 then m + 1 else 0)
    decreases m + 1, 0
  {
    var b := if RivalCount(values[k], cartridge, position, above) > 0 then 1 else 0;
    assert KeysLegacySpread(ms + Repeat(k, m), values, cartridge, position, above)
        == KeysLegacySpread(ms, values, cartridge, position, above) + m * b by {
      KeysLegacySpreadRepeat(ms, k, m, values, cartridge, position, above);
    }
    var xs := ms + Repeat(k, m);
    assert ms + Repeat(k, m + 1) == xs + [k];
    KeysSpreadAppend(xs, k, values, cartridge, position, above);
  }

  lemma KeysSpreadAppend(xs: seq<string>, k: string, values: map<string, seq<Occurrence>>, cartridge: string, position: int, above: bool)
    requires k in values && forall x :: x in xs ==> x in values
    ensures KeysSpread(xs + [k], values, cartridge, position, above)
         == KeysSpread(xs, values, cartridge, position, above) + RivalCount(values[k], cartridge, position, above)
    ensures KeysLegacySpread(xs + [k], values, cartridge, position, above)
         == KeysLegacySpread(xs, values, cartridge, position, above)
            + (if RivalCount(values[k], cartridge, position, above) > 0 then 1 else 0)
  {
    assert (xs + [k])[..|xs|] == xs;
  }

  lemma KeysSpreadSnoc(ms: seq<string>, values: map<string, seq<Occurrence>>, cartridge: string, position: int, above: bool, m: nat)
    requires m < |ms| && forall x :: x in ms ==> x in values
    ensures KeysSpread(ms[..m + 1], values, cartridge, position, above)
         == KeysSpread(ms[..m], values, cartridge, position, above) + RivalCount(values[ms[m]], cartridge, position, above)
    ensures KeysLegacySpread(ms[..m + 1], values, cartridge, position, above)
         == KeysLegacySpread(ms[..m], values, cartridge, position, above)
            + (if RivalCount(values[ms[m]], cartridge, position, above) > 0 then 1 else 0)
  {
    assert ms[..m + 1][..m] == ms[..m];
  }

  lemma OwnedCountSnoc(g: seq<Occurrence>, cartridge: string, relativeKey: string, j: nat)
    requires j < |g|
    ensures OwnedCount(g[..j + 1], cartridge, relativeKey)
         == OwnedCount(g[..j], cartridge, relativeKey) + (if Owned(g[j], cartridge, relativeKey) then 1 else 0)
  {
    assert g[..j + 1][..j] == g[..j];
  }

  lemma MatchedKeysSnoc(keys: seq<string>, values: map<string, seq<Occurrence>>, cartridge: string, relativeKey: string, i: nat)
    requires i < |keys| && forall k :: k in keys ==> k in values
    ensures MatchedKeys(keys[..i + 1], values, cartridge, relativeKey)
         == MatchedKeys(keys[..i], values, cartridge, relativeKey) + Repeat(keys[i], MatchCount(values[keys[i]], cartridge, relativeKey))
  {
    assert keys[..i + 1][..i] == keys[..i];
  }

  /**
   * Summing over the matched keys gives the per-group counts: `total` is
   * the number of matches, the sums are the two generations' `above`/`below`.
   */
  lemma {:induction false} MatchedKeysCounts(keys: seq<string>, values: map<string, seq<Occurrence>>,
                                             cartridge: string, relativeKey: string, position: int, above: bool)
    requires forall k :: k in keys ==> k in values
    ensures |MatchedKeys(keys, values, cartridge, relativeKey)| == Total(GroupsOf(keys, values), cartridge, relativeKey)
    ensures KeysSpread(MatchedKeys(keys, values, cartridge, relativeKey), values, cartridge, position, above)
         == Spread(GroupsOf(keys, values), cartridge, relativeKey, position, above)
    ensures KeysLegacySpread(MatchedKeys(keys, values, cartridge, relativeKey), values, cartridge, position, above)
         == LegacySpread(GroupsOf(keys, values), cartridge, relativeKey, position, above)
  {
    if |keys| > 0 {
      var init := keys[..|keys| - 1];
      var k := keys[|keys| - 1];
      MatchedKeysCounts(init, values, cartridge, relativeKey, position, above);
      var n := MatchCount(values[k], cartridge, relativeKey);
      KeysSpreadRepeat(MatchedKeys(init, values, cartridge, relativeKey), k, n, values, cartridge, position, above);
      KeysLegacySpreadRepeat(MatchedKeys(init, values, cartridge, relativeKey), k, n, values, cartridge, position, above);
      var gs := GroupsOf(keys, values);
      assert gs[..|gs| - 1] == GroupsOf(init, values) && gs[|gs| - 1] == values[k];
    }
  }

  /** The inner `array.forEach` of the `matches`/`total` pass: one push of the key per match in its group. */
  method CollectGroup(g: seq<Occurrence>, key: string, cartridge: string, relativeKey: string, before: seq<string>, total0: nat)
    returns (matches: seq<string>, total: nat)
    ensures matches == before + Repeat(key, MatchCount(g, cartridge, relativeKey))
    ensures total == total0 + MatchCount(g, cartridge, relativeKey)
  {
    matches := before;
    total := total0;
    var j := 0;
    while j < |g|
      invariant 0 <= j <= |g|
      invariant matches == before + Repeat(key, if |g| > 1 then OwnedCount(g[..j], cartridge, relativeKey) else 0)
      invariant total == total0 + (if |g| > 1 then OwnedCount(g[..j], cartridge, relativeKey) else 0)
    {
      OwnedCountSnoc(g, cartridge, relativeKey, j);
      var o := g[j];
      var isMatch := if relativeKey != "" && o.file != "" then |g| > 1 && o.cartridge == cartridge && IndexOf(o.file, relativeKey) > -1
                     else |g| > 1 && o.cartridge == cartridge;
      ghost var count := if |g| > 1 then OwnedCount(g[..j], cartridge, relativeKey) else 0;
      assert isMatch == (|g| > 1 && Owned(o, cartridge, relativeKey));
      if isMatch {
        assert Repeat(key, count + 1) == Repeat(key, count) + [key];
        matches := matches + [key];
        total := total + 1;
      }
      j := j + 1;
    }
    assert g[..|g|] == g;
  }

  /**
   * The `matches`/`total` pass of `getOverrides`: every matching occurrence
   * counts towards `total` and pushes its group's key onto `matches`.
   */
  method CollectMatches(d: Groups, cartridge: string, relativeKey: string) returns (matches: seq<string>, total: nat)
    requires d.Valid()
    ensures matches == MatchedKeys(d.keys, d.values, cartridge, relativeKey)
    ensures total == |matches|
  {
    matches := [];
    total := 0;
    var i := 0;
    while i < |d.keys|
      invariant 0 <= i <= |d.keys|
      invariant matches == MatchedKeys(d.keys[..i], d.values, cartridge, relativeKey)
      invariant total == |matches|
    {
      var key := d.keys[i];
      MatchedKeysSnoc(d.keys, d.values, cartridge, relativeKey, i);
      matches, total := CollectGroup(d.values[key], key, cartridge, relativeKey, matches, total);
      i := i + 1;
    }
    assert d.keys[..|d.keys|] == d.keys;
  }

  /** `getOverrides` of extension/Cartridges.js without its cache. */
  method CountOverrides(d: Groups, cartridge: string, relativeKey: string, position: int) returns (r: Overrides)
    requires d.Valid()
    ensures r == Counts(GroupsOf(d.keys, d.values), cartridge, relativeKey, position)
  {
    var matches, total := CollectMatches(d, cartridge, relativeKey);
    MatchedKeysCounts(d.keys, d.values, cartridge, relativeKey, position, true);
    MatchedKeysCounts(d.keys, d.values, cartridge, relativeKey, position, false);
    var above := 0;
    var below := 0;
    var m := 0;
    while m < |matches|
      invariant 0 <= m <= |matches|
      invariant above == KeysSpread(matches[..m], d.values, cartridge, position, true)
      invariant below == KeysSpread(matches[..m], d.values, cartridge, position, false)
    {
      KeysSpreadSnoc(matches, d.values, cartridge, position, true, m);
      KeysSpreadSnoc(matches, d.values, cartridge, position, false, m);
      var up := CountRivals(d.values[matches[m]], cartridge, position, true);
      var down := CountRivals(d.values[matches[m]], cartridge, position, false);
      above := above + up;
      below := below + down;
      m := m + 1;
    }
    assert matches[..|matches|] == matches;
    r := Overrides(above, below, total);
  }

  /** `getOverrides` of sfccCartridges.js: `above++`/`below++` once per match that has a rival on that side. */
  method LegacyCountOverrides(d: Groups, cartridge: string, relativeKey: string, position: int) returns (r: Overrides)
    requires d.Valid()
    ensures r == LegacyCounts(GroupsOf(d.keys, d.values), cartridge, relativeKey, position)
  {
    var matches, total := CollectMatches(d, cartridge, relativeKey);
    MatchedKeysCounts(d.keys, d.values, cartridge, relativeKey, position, true);
    MatchedKeysCounts(d.keys, d.values, cartridge, relativeKey, position, false);
    var above := 0;
    var below := 0;
    var m := 0;
    while m < |matches|
      invariant 0 <= m <= |matches|
      invariant above == KeysLegacySpread(matches[..m], d.values, cartridge, position, true)
      invariant below == KeysLegacySpread(matches[..m], d.values, cartridge, position, false)
    {
      KeysSpreadSnoc(matches, d.values, cartridge, position, true, m);
      KeysSpreadSnoc(matches, d.values, cartridge, position, false, m);
      var up := CountRivals(d.values[matches[m]], cartridge, position, true);
      var down := CountRivals(d.values[matches[m]], cartridge, position, false);
      if up > 0 { above := above + 1; }
      if down > 0 { below := below + 1; }
      m := m + 1;
    }
    assert matches[..|matches|] == matches;
    r := Overrides(above, below, total);
  }

  // ---------------------------------------------------------------------
  // Properties of the counts

  /** The groups with more than one file. */
  function Shared(gs: seq<seq<Occurrence>>): seq<seq<Occurrence>> {
    if |gs| == 0 then []
    else Shared(gs[..|gs| - 1]) + (if |gs[|gs| - 1]| > 1 then [gs[|gs| - 1]] else [])
  }

  /** Groups of a single file never contribute: the counts over all groups are those over the shared ones. */
  lemma {:induction false} SingletonsNeverCount(gs: seq<seq<Occurrence>>, cartridge: string, relativeKey: string, position: int)
    ensures Counts(gs, cartridge, relativeKey, position) == Counts(Shared(gs), cartridge, relativeKey, position)
    ensures LegacyCounts(gs, cartridge, relativeKey, position) == LegacyCounts(Shared(gs), cartridge, relativeKey, position)
  {
    if |gs| > 0 {
      var init := gs[..|gs| - 1];
      var g := gs[|gs| - 1];
      SingletonsNeverCount(init, cartridge, relativeKey, position);
      if |g| > 1 {
        var s := Shared(init) + [g];
        assert Shared(gs) == s;
        assert s[..|s| - 1] == Shared(init) && s[|s| - 1] == g;
      } else {
        assert Shared(gs) == Shared(init);
        assert MatchCount(g, cartridge, relativeKey) == 0;
      }
    }
  }

  /** The older counts never exceed `total`: each match adds at most one to either side. */
  lemma {:induction false} LegacyBoundedByTotal(gs: seq<seq<Occurrence>>, cartridge: string, relativeKey: string, position: int)
    ensures LegacyCounts(gs, cartridge, relativeKey, position).above <= LegacyCounts(gs, cartridge, relativeKey, position).total
    ensures LegacyCounts(gs, cartridge, relativeKey, position).below <= LegacyCounts(gs, cartridge, relativeKey, position).total
  {
    if |gs| > 0 {
      LegacyBoundedByTotal(gs[..|gs| - 1], cartridge, relativeKey, position);
    }
  }

  /**
   * The two generations agree on whether there is an override on a side,
   * the current one counting at least as many.
   */
  lemma {:induction false} GenerationsAgreeOnPresence(gs: seq<seq<Occurrence>>, cartridge: string, relativeKey: string, position: int, above: bool)
    ensures LegacySpread(gs, cartridge, relativeKey, position, above) <= Spread(gs, cartridge, relativeKey, position, above)
    ensures LegacySpread(gs, cartridge, relativeKey, position, above) == 0 <==> Spread(gs, cartridge, relativeKey, position, above) == 0
  {
    if |gs| > 0 {
      GenerationsAgreeOnPresence(gs[..|gs| - 1], cartridge, relativeKey, position, above);
      var g := gs[|gs| - 1];
      var m := MatchCount(g, cartridge, relativeKey);
      var n := RivalCount(g, cartridge, position, above);
      if n > 0 {
        assert m * n >= m;
      } else {
        assert m * n == 0;
      }
    }
  }

  /** Two rivals on one side of one match: the current count says two, the older one says one. */
  lemma GenerationsDiffer()
    ensures var g := [Occurrence("base", "/w/cartridges/base/cartridge/a.js", 2, None),
                      Occurrence("mid", "/w/cartridges/mid/cartridge/a.js", 1, None),
                      Occurrence("top", "/w/cartridges/top/cartridge/a.js", 0, None)];
      Spread([g], "base", "", 2, true) == 2 && LegacySpread([g], "base", "", 2, true) == 1
  {
    var g := [Occurrence("base", "/w/cartridges/base/cartridge/a.js", 2, None),
              Occurrence("mid", "/w/cartridges/mid/cartridge/a.js", 1, None),
              Occurrence("top", "/w/cartridges/top/cartridge/a.js", 0, None)];
    assert g[..2][..1] == [g[0]];
    assert OwnedCount(g[..1], "base", "") == 1;
    assert OwnedCount(g, "base", "") == 1;
    assert RivalCount(g[..1], "base", 2, true) == 0;
    assert RivalCount(g, "base", 2, true) == 2;
    var gs: seq<seq<Occurrence>> := [g];
    assert gs[..0] == [];
  }

  // ---------------------------------------------------------------------
  // The cache key

  /** The cache key: the cartridge name followed by the relative key with separators and dots turned into `-` (nothing for a missing key). */
  function CacheKey(cartridge: string, relativeKey: string): (r: string)
    ensures |r| == |cartridge| + |relativeKey| && r[..|cartridge|] == cartridge
    ensures SEP !in r[|cartridge|..] && '.' !in r[|cartridge|..]
  {
    ReplaceSeparatorsClean(relativeKey);
    var r := cartridge + (if relativeKey != "" then ReplaceSeparators(relativeKey) else "");
    assert r[|cartridge|..] == ReplaceSeparators(relativeKey);
    r
  }

  /** Two relative keys that differ only in where a '/' or a '.' stands share one cache key. */
  lemma CacheKeysCollide(cartridge: string, a: string, b: string)
    requires |a| == |b|
    requires forall i :: 0 <= i < |a| ==> a[i] == b[i] || ((a[i] == SEP || a[i] == '.') && (b[i] == SEP || b[i] == '.'))
    ensures CacheKey(cartridge, a) == CacheKey(cartridge, b)
  {
    var ra, rb := ReplaceSeparators(a), ReplaceSeparators(b);
    assert ra == rb;
  }

  /** A file and a folder file name that a dot and a separator tell apart share their counts' cache key. */
  lemma CacheKeyFolderVersusDot()
    ensures CacheKey("app", "/w/scripts/a/b.js") == CacheKey("app", "/w/scripts/a.b.js")
  {
    CacheKeysCollide("app", "/w/scripts/a/b.js", "/w/scripts/a.b.js");
  }

  /**
   * The relative key is matched as a substring, so a folder's count also
   * takes in the files of a sibling folder whose name extends it.
   */
  lemma SiblingFolderCounts(before: string, extra: string, after: string)
    ensures Owned(Occurrence("app", before + "/scripts/a" + extra + after, 0, None), "app", before + "/scripts/a")
  {
    var key := before + "/scripts/a";
    var file := before + "/scripts/a" + extra + after;
    assert file == "" + key + (extra + after);
    ContainsInfix("", key, extra + after);
  }
}
