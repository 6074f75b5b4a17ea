/**
 * The items of the overrides panel: the flat listing of `defaultGenerator`
 * (and of the older `generateTemplateTree`), the controller listing with one
 * child per route verb, and the `.properties` listing with one child per key
 * that more than one cartridge defines (extension/CartridgeOverridesProvider.js,
 * CartridgeOverridesProvider.js).
 */
module PanelTrees {
  import opened Strings
  import opened Wrappers
  import opened Constants
  import opened Util
  import opened Dicts
  import opened OverrideIndex
  import opened TreeItems
  import opened Trie
  import RouteScan
  import PropertiesScan

  /**
   * `{command: 'vscode.open', arguments: [resourceUri]}`, with
   * `{selection}` at the start of the 0-based line `line` when given.
   */
  datatype OpenArgs = OpenArgs(resource: Option<string>, line: Option<int>)

  /** One entry of the panel; an empty `children` list stands for an entry without the field. */
  datatype PanelItem = PanelItem(
    name: string,
    description: Option<string>,
    context: string,
    isSelected: Option<nat>,
    sortOrder: Option<nat>,
    icon: IconPath,
    command: Option<OpenArgs>,
    tooltip: Option<string>,
    children: seq<PanelItem>)

  // ---------------------------------------------------------------------
  // The guard key

  /** The guard key: the cartridge, `_`, and the file name with every separator and dot turned into `-`. */
  function GuardKey(data: FileData): (key: string)
    ensures |key| == |data.cartridge| + 1 + |data.name|
    ensures key[..|data.cartridge|] == data.cartridge && key[|data.cartridge|] == '_'
    ensures forall i :: |data.cartridge| < i < |key| ==>
      key[i] == if data.name[i - |data.cartridge| - 1] == SEP || data.name[i - |data.cartridge| - 1] == '.' then '-'
                else data.name[i - |data.cartridge| - 1]
  {
    data.cartridge + "_" + ReplaceSeparators(data.name)
  }

  /** The key keeps no separator and no dot from the file name. */
  lemma GuardKeyClean(data: FileData)
    ensures forall i :: |data.cartridge| < i < |GuardKey(data)| ==> GuardKey(data)[i] != SEP && GuardKey(data)[i] != '.'
  {
  }

  lemma ReplaceSeparatorsAppend(x: string, y: string)
    ensures ReplaceSeparators(x + y) == ReplaceSeparators(x) + ReplaceSeparators(y)
  {
    var l := ReplaceSeparators(x + y);
    var rx, ry := ReplaceSeparators(x), ReplaceSeparators(y);
    var r := rx + ry;
    assert |l| == |r|;
    forall i | 0 <= i < |l| ensures l[i] == r[i] {
      if i < |x| {
        assert (x + y)[i] == x[i] && r[i] == rx[i];
      } else {
        assert (x + y)[i] == y[i - |x|] && r[i] == ry[i - |x|];
      }
    }
  }

  /**
   * The key does not tell pairs apart: cartridge `a_b` with file `n` and
   * cartridge `a` with file `b_n` share it whenever `b` holds no separator
   * and no dot, so opening the second right after the first changes nothing.
   */
  lemma GuardKeyCartridgeCollision(a: string, b: string, n: string, ovs: seq<Occurrence>, resource: string, t: FileType)
    requires SEP !in b && '.' !in b
    ensures GuardKey(FileData(a + "_" + b, n, ovs, resource, t)) == GuardKey(FileData(a, b + "_" + n, ovs, resource, t))
  {
    KeyCollision(a, b, n);
  }

  lemma KeyCollision(a: string, b: string, n: string)
    requires SEP !in b && '.' !in b
    ensures (a + "_" + b) + "_" + ReplaceSeparators(n) == a + "_" + ReplaceSeparators(b + "_" + n)
  {
    var m := ReplaceSeparators(n);
    ReplaceSeparatorsUnderscore(b, n);
    assert (a + "_" + b) + "_" + m == a + "_" + (b + "_" + m);
  }

  lemma ReplaceSeparatorsUnderscore(b: string, n: string)
    requires SEP !in b && '.' !in b
    ensures ReplaceSeparators(b + "_" + n) == b + "_" + ReplaceSeparators(n)
  {
    var u := "_" + n;
    assert b + "_" + n == b + u;
    assert u[1..] == n;
    assert ReplaceSeparators(u) == "_" + ReplaceSeparators(n);
    ReplaceSeparatorsAppend(b, u);
    ReplaceSeparatorsKeeps(b);
  }

  /** A name with neither a separator nor a dot is left as it is. */
  lemma ReplaceSeparatorsKeeps(b: string)
    requires SEP !in b && '.' !in b
    ensures ReplaceSeparators(b) == b
  {
    var rb := ReplaceSeparators(b);
    forall i | 0 <= i < |b| ensures rb[i] == b[i] {
      assert b[i] in b;
    }
  }

  /** Nor does it tell a separator from a dot: `x/y.js` and `x.y.js` in one cartridge share it. */
  lemma GuardKeySeparatorCollision(c: string, x: string, y: string, ovs: seq<Occurrence>, resource: string, t: FileType)
    ensures GuardKey(FileData(c, x + [SEP] + y, ovs, resource, t)) == GuardKey(FileData(c, x + ['.'] + y, ovs, resource, t))
  {
    var l := ReplaceSeparators(x + [SEP] + y);
    var r := ReplaceSeparators(x + ['.'] + y);
    forall i | 0 <= i < |l| ensures l[i] == r[i] {
      if i > |x| { assert (x + [SEP] + y)[i] == (x + ['.'] + y)[i]; }
      else if i < |x| { assert (x + [SEP] + y)[i] == (x + ['.'] + y)[i]; }
    }
  }

  // ---------------------------------------------------------------------
  // Parent entries, one per occurrence

  /** `isSelected`: 1 for the occurrences of the selected cartridge, 0 for the others. */
  function Selected(data: FileData, o: Occurrence): (sel: nat)
    ensures sel == 1 <==> o.cartridge == data.cartridge
    ensures sel == 0 <==> o.cartridge != data.cartridge
  {
    if data.cartridge == o.cartridge then 1 else 0
  }

  /** The last occurrence shows the type icon, every other one the `override` icon. */
  function ParentIcon(legacy: bool, dir: string, data: FileData, kind: string, i: nat): IconPath
    requires i < |data.overrides|
  {
    var sel := Selected(data, data.overrides[i]);
    if i == |data.overrides| - 1 then Icon(legacy, dir, kind, sel) else Icon(legacy, dir, "override", sel)
  }

  lemma InfixDiffers(pre: string, a: string, b: string, post: string)
    requires a != b
    ensures pre + a + post != pre + b + post
  {
    if |a| == |b| {
      assert (pre + a + post)[|pre|..|pre| + |a|] == a;
      assert (pre + b + post)[|pre|..|pre| + |b|] == b;
    } else {
      assert |pre + a + post| != |pre + b + post|;
    }
  }

  /** Icons of two different kinds differ, whatever the count. */
  lemma IconKindsDiffer(legacy: bool, dir: string, kind: string, other: string, count: int)
    requires kind != other
    ensures Icon(legacy, dir, kind, count) != Icon(legacy, dir, other, count)
  {
    var pre := dir + "/resources/light/";
    var post := if count <= 0 then ".svg" else if legacy then "-override.svg" else "-active.svg";
    assert Icon(legacy, dir, kind, count).light == pre + kind + post;
    assert Icon(legacy, dir, other, count).light == pre + other + post;
    InfixDiffers(pre, kind, other, post);
  }

  /** Only the last occurrence gets the type icon (the type is not `override` itself). */
  lemma ParentIconLast(legacy: bool, dir: string, data: FileData, kind: string, i: nat)
    requires i < |data.overrides| && kind != "override"
    ensures ParentIcon(legacy, dir, data, kind, i) == Icon(legacy, dir, kind, Selected(data, data.overrides[i]))
        <==> i == |data.overrides| - 1
  {
    if i != |data.overrides| - 1 {
      IconKindsDiffer(legacy, dir, kind, "override", Selected(data, data.overrides[i]));
    }
  }

  /**
   * The parent entry of occurrence `i`: with children it is a `folder`
   * holding them, without it is a `file` that opens the occurrence.
   */
  function Parent(dir: string, data: FileData, kind: string, name: string, i: nat, children: seq<PanelItem>): PanelItem
    requires i < |data.overrides|
  {
    var o := data.overrides[i];
    PanelItem(name, Some(o.cartridge), if |children| > 0 then "folder" else "file",
      Some(Selected(data, o)), Some(i), ParentIcon(false, dir, data, kind, i),
      if |children| > 0 then None else Some(OpenArgs(o.resource, None)), None, children)
  }

  lemma ParentShape(dir: string, data: FileData, kind: string, name: string, i: nat, children: seq<PanelItem>)
    requires i < |data.overrides|
    ensures var p := Parent(dir, data, kind, name, i, children);
      && (p.context == "folder" <==> |children| > 0)
      && (p.context == "file" <==> |children| == 0)
      && (p.command.Some? <==> |children| == 0)
      && (p.command.Some? ==> p.command.value.resource == data.overrides[i].resource && p.command.value.line.None?)
      && p.children == children
      && p.description == Some(data.overrides[i].cartridge) && p.sortOrder == Some(i)
  {
  }

  // ---------------------------------------------------------------------
  // The flat listing

  /** The entry `defaultGenerator` (or the older `generateTemplateTree`) pushes for occurrence `i`. */
  function DefaultEntry(legacy: bool, dir: string, data: FileData, kind: string, i: nat): PanelItem
    requires i < |data.overrides|
  {
    var o := data.overrides[i];
    PanelItem(data.name, Some(o.cartridge), "file", Some(Selected(data, o)), Some(i),
      ParentIcon(legacy, dir, data, kind, i), Some(OpenArgs(o.resource, None)), None, [])
  }

  /** The flat listing: one entry per occurrence in occurrence order. */
  function DefaultTree(legacy: bool, dir: string, data: FileData, kind: string): seq<PanelItem> {
    seq(|data.overrides|, i requires 0 <= i < |data.overrides| => DefaultEntry(legacy, dir, data, kind, i))
  }

  /**
   * One entry per occurrence, in order, numbered by its index, opening its
   * file, labelled with its cartridge and selected exactly for the selected
   * cartridge; only the last entry has the type icon.
   */
  lemma DefaultTreeListing(legacy: bool, dir: string, data: FileData, kind: string)
    requires kind != "override"
    ensures var t := DefaultTree(legacy, dir, data, kind);
      && |t| == |data.overrides|
      && (forall i :: 0 <= i < |t| ==>
            && t[i].name == data.name && t[i].context == "file" && t[i].children == []
            && t[i].description == Some(data.overrides[i].cartridge) && t[i].sortOrder == Some(i)
            && t[i].command == Some(OpenArgs(data.overrides[i].resource, None))
            && (t[i].isSelected == Some(1) <==> data.overrides[i].cartridge == data.cartridge)
            && (t[i].isSelected == Some(0) <==> data.overrides[i].cartridge != data.cartridge))
      && (forall i :: 0 <= i < |t| ==>
            (t[i].icon == Icon(legacy, dir, kind, Selected(data, data.overrides[i])) <==> i == |t| - 1))
  {
    var t := DefaultTree(legacy, dir, data, kind);
    forall i | 0 <= i < |t|
      ensures t[i].icon == Icon(legacy, dir, kind, Selected(data, data.overrides[i])) <==> i == |t| - 1
    {
      ParentIconLast(legacy, dir, data, kind, i);
    }
  }

  /** The loop over the occurrences that pushes one entry each. */
  method BuildDefaultTree(legacy: bool, dir: string, data: FileData, kind: string) returns (tree: seq<PanelItem>)
    ensures tree == DefaultTree(legacy, dir, data, kind)
  {
    tree := [];
    var i := 0;
    while i < |data.overrides|
      invariant 0 <= i <= |data.overrides|
      invariant |tree| == i && forall j :: 0 <= j < i ==> tree[j] == DefaultEntry(legacy, dir, data, kind, j)
    {
      tree := tree + [DefaultEntry(legacy, dir, data, kind, i)];
      i := i + 1;
    }
  }

  // ---------------------------------------------------------------------
  // Children: the first record of every key the cartridge has

  /**
   * The walk over the keys `keys` of `d` that takes `d[k][c][0]` wherever
   * `d[k]` has an entry for `c`: the first record under each key that has an
   * entry for `c`, in key order.
   */
  function FirstRecords<T>(d: Dict<Dict<seq<T>>>, keys: seq<string>, c: string): seq<T>
    requires NoEmptyList(d)
  {
    if |keys| == 0 then []
    else
      var k := keys[|keys| - 1];
      FirstRecords(d, keys[..|keys| - 1], c)
      + (if k in d.values && c in d.values[k].values then [d.values[k].values[c][0]] else [])
  }

  lemma FirstRecordsSnoc<T>(d: Dict<Dict<seq<T>>>, keys: seq<string>, c: string, j: nat)
    requires NoEmptyList(d) && j < |keys|
    ensures FirstRecords(d, keys[..j + 1], c) == FirstRecords(d, keys[..j], c)
      + (if keys[j] in d.values && c in d.values[keys[j]].values then [d.values[keys[j]].values[c][0]] else [])
  {
    assert keys[..j + 1][..j] == keys[..j];
  }

  /** A record is among them exactly when it heads the non-empty list of `c` under one of the keys. */
  lemma {:induction false} FirstRecordsMember<T>(d: Dict<Dict<seq<T>>>, keys: seq<string>, c: string, x: T)
    requires NoEmptyList(d)
    ensures x in FirstRecords(d, keys, c) <==> exists k :: k in keys && |Get2(d, k, c)| > 0 && x == Get2(d, k, c)[0]
    decreases |keys|
  {
    if |keys| > 0 {
      var init := keys[..|keys| - 1];
      var k := keys[|keys| - 1];
      FirstRecordsMember(d, init, c, x);
      assert keys == init + [k];
      var last := if |Get2(d, k, c)| > 0 then [Get2(d, k, c)[0]] else [];
      assert FirstRecords(d, keys, c) == FirstRecords(d, init, c) + last;
      if x in FirstRecords(d, init, c) {
        var k' :| k' in init && |Get2(d, k', c)| > 0 && x == Get2(d, k', c)[0];
        assert k' in keys;
      } else if x in last {
        assert k in keys && |Get2(d, k, c)| > 0 && x == Get2(d, k, c)[0];
      } else {
        forall k' | k' in keys && |Get2(d, k', c)| > 0 ensures x != Get2(d, k', c)[0] {
          if k' != k {
            assert k' in init;
          }
        }
      }
    }
  }

  lemma FirstRecordsMembers<T>(d: Dict<Dict<seq<T>>>, keys: seq<string>, c: string)
    requires NoEmptyList(d)
    ensures forall x :: x in FirstRecords(d, keys, c) <==>
      exists k :: k in keys && |Get2(d, k, c)| > 0 && x == Get2(d, k, c)[0]
  {
    forall x ensures x in FirstRecords(d, keys, c) <==> exists k :: k in keys && |Get2(d, k, c)| > 0 && x == Get2(d, k, c)[0] {
      FirstRecordsMember(d, keys, c, x);
    }
  }

  // ---------------------------------------------------------------------
  // The controller listing

  /** `0`-based selection line of a route: `propObj.lineNumber ? lineNumber - 1 : none`. */
  function RouteLine(lineNumber: Option<nat>): Option<int> {
    if lineNumber.Some? && lineNumber.value != 0 then Some(lineNumber.value - 1) else None
  }

  /** The child pushed for the first route of a verb. */
  function RouteChild(dir: string, r: RouteScan.Route): PanelItem {
    PanelItem(r.name, Some(RouteScan.VerbName(r.verb)), "file", None, None, GetIcon(dir, "route", 0),
      Some(OpenArgs(r.resource, RouteLine(r.lineNumber))), Some(r.tooltip), [])
  }

  function RouteItems(dir: string, rs: seq<RouteScan.Route>): seq<PanelItem> {
    seq(|rs|, j requires 0 <= j < |rs| => RouteChild(dir, rs[j]))
  }

  /** Parent `i` of the controller listing: named after the file without `.js`. */
  function ControllerEntry(dir: string, data: FileData, routes: RouteScan.Routes, i: nat): PanelItem
    requires NoEmptyList(routes) && i < |data.overrides|
  {
    Parent(dir, data, "controllers", ReplaceFirst(data.name, ".js", ""), i,
      RouteItems(dir, FirstRecords(routes, routes.keys, data.overrides[i].cartridge)))
  }

  function ControllerTree(dir: string, data: FileData, routes: RouteScan.Routes): seq<PanelItem>
    requires NoEmptyList(routes)
  {
    seq(|data.overrides|, i requires 0 <= i < |data.overrides| => ControllerEntry(dir, data, routes, i))
  }

  /** Over a whole valid table: the first records of `c` are the heads of its non-empty lists. */
  lemma FirstRecordsOfTable<T>(d: Dict<Dict<seq<T>>>, c: string)
    requires NestedValid(d) && NoEmptyList(d)
    ensures forall x :: x in FirstRecords(d, d.keys, c) <==>
      exists k :: |Get2(d, k, c)| > 0 && x == Get2(d, k, c)[0]
  {
    FirstRecordsMembers(d, d.keys, c);
    forall x | exists k :: |Get2(d, k, c)| > 0 && x == Get2(d, k, c)[0] ensures x in FirstRecords(d, d.keys, c) {
      var k :| |Get2(d, k, c)| > 0 && x == Get2(d, k, c)[0];
      assert k in d.keys;
    }
  }

  /**
   * After the whole scan the list of `c` under each verb holds the routes of that verb from the files of `c`,
   * in scan order (last override first).
   */
  lemma RoutesByVerb(os: seq<Occurrence>, texts: seq<string>, c: string)
    requires |os| == |texts|
    ensures forall v: RouteScan.Verb ::
      Get2(RouteScan.ScanAll(Empty(), os, texts, |os|), RouteScan.VerbName(v), c) == RouteScan.AllRecords(os, texts, |os|, v, c)
  {
    forall v: RouteScan.Verb
      ensures Get2(RouteScan.ScanAll(Empty(), os, texts, |os|), RouteScan.VerbName(v), c) == RouteScan.AllRecords(os, texts, |os|, v, c)
    {
      RouteScan.ScanAllContents(Empty(), os, texts, |os|, v, c);
      assert [] + RouteScan.AllRecords(os, texts, |os|, v, c) == RouteScan.AllRecords(os, texts, |os|, v, c);
    }
  }

  /**
   * Over a well-formed routes table, the children of cartridge `c` are the
   * first routes of `c` under each verb that has any; with `RoutesByVerb`
   * these are the first routes of that verb in the files of `c`.
   */
  lemma ControllerFirstRoutes(routes: RouteScan.Routes, c: string)
    requires RouteScan.WellFormed(routes)
    ensures forall r :: r in FirstRecords(routes, routes.keys, c) <==>
      exists v: RouteScan.Verb :: |Get2(routes, RouteScan.VerbName(v), c)| > 0 && r == Get2(routes, RouteScan.VerbName(v), c)[0]
  {
    FirstRecordsOfTable(routes, c);
    forall r | r in FirstRecords(routes, routes.keys, c)
      ensures exists v: RouteScan.Verb :: |Get2(routes, RouteScan.VerbName(v), c)| > 0 && r == Get2(routes, RouteScan.VerbName(v), c)[0]
    {
      var k :| |Get2(routes, k, c)| > 0 && r == Get2(routes, k, c)[0];
      var v: RouteScan.Verb :| k == RouteScan.VerbName(v);
    }
  }

  /** The inner `Object.keys(overrideRoutes).forEach(...)` of parent `i`. */
  method RouteChildren(dir: string, routes: RouteScan.Routes, c: string) returns (children: seq<PanelItem>)
    requires NoEmptyList(routes)
    ensures children == RouteItems(dir, FirstRecords(routes, routes.keys, c))
  {
    children := [];
    var keys := routes.keys;
    var j := 0;
    while j < |keys|
      invariant 0 <= j <= |keys|
      invariant children == RouteItems(dir, FirstRecords(routes, keys[..j], c))
    {
      FirstRecordsSnoc(routes, keys, c, j);
      var k := keys[j];
      if k in routes.values && c in routes.values[k].values {
        var propObj := routes.values[k].values[c][0];
        children := children + [RouteChild(dir, propObj)];
      }
      assert children == RouteItems(dir, FirstRecords(routes, keys[..j + 1], c));
      j := j + 1;
    }
    assert keys[..j] == keys;
  }

  /** `data.overrides.forEach(...)` of the controller listing. */
  method BuildControllerTree(dir: string, data: FileData, routes: RouteScan.Routes) returns (tree: seq<PanelItem>)
    requires NoEmptyList(routes)
    ensures tree == ControllerTree(dir, data, routes)
  {
    tree := [];
    var i := 0;
    while i < |data.overrides|
      invariant 0 <= i <= |data.overrides|
      invariant |tree| == i && forall j :: 0 <= j < i ==> tree[j] == ControllerEntry(dir, data, routes, j)
    {
      var children := RouteChildren(dir, routes, data.overrides[i].cartridge);
      tree := tree + [Parent(dir, data, "controllers", ReplaceFirst(data.name, ".js", ""), i, children)];
      i := i + 1;
    }
  }

  // ---------------------------------------------------------------------
  // The `.properties` listing

  /** The child pushed for the first definition of a key. */
  function PropertyChild(dir: string, p: PropertiesScan.Property): PanelItem {
    PanelItem(p.name, None, "file", None, None, GetIcon(dir, "property", 0),
      Some(OpenArgs(p.resource, Some(p.lineNumber - 1))), None, [])
  }

  function PropertyItems(dir: string, ps: seq<PropertiesScan.Property>): seq<PanelItem> {
    seq(|ps|, j requires 0 <= j < |ps| => PropertyChild(dir, ps[j]))
  }

  function PropertiesEntry(dir: string, data: FileData, props: PropertiesScan.Props, i: nat): PanelItem
    requires NoEmptyList(props) && i < |data.overrides|
  {
    Parent(dir, data, "templates", data.name, i,
      PropertyItems(dir, FirstRecords(props, props.keys, data.overrides[i].cartridge)))
  }

  function PropertiesTree(dir: string, data: FileData, props: PropertiesScan.Props): seq<PanelItem>
    requires NoEmptyList(props)
  {
    seq(|data.overrides|, i requires 0 <= i < |data.overrides| => PropertiesEntry(dir, data, props, i))
  }

  /** `k` is a key at least two cartridges define, `c` among them, and `p` its first definition for `c`. */
  ghost predicate SharedFirst(os: seq<Occurrence>, texts: seq<string>, k: string, c: string, p: PropertiesScan.Property)
    requires |os| == |texts|
  {
    var scanned := PropertiesScan.ScanProps(Empty(), os, texts, |os|);
    && k in scanned.values && |scanned.values[k].keys| >= 2
    && |PropertiesScan.AllProps(os, texts, |os|, k, c)| > 0 && p == PropertiesScan.AllProps(os, texts, |os|, k, c)[0]
  }

  /**
   * For the scanned and cleaned table, the children of a cartridge come
   * from the keys that at least two cartridges define and this one defines
   * too, each at its first definition in scan order (last override first).
   */
  lemma PropertiesFirstKeys(os: seq<Occurrence>, texts: seq<string>, c: string)
    requires |os| == |texts|
    ensures PropertiesScan.WellFormed(PropertiesScan.Pruned(PropertiesScan.ScanProps(Empty(), os, texts, |os|)))
    ensures var props := PropertiesScan.Pruned(PropertiesScan.ScanProps(Empty(), os, texts, |os|));
      forall p :: p in FirstRecords(props, props.keys, c) <==> exists k :: SharedFirst(os, texts, k, c, p)
  {
    var scanned := PropertiesScan.ScanProps(Empty(), os, texts, |os|);
    var props := PropertiesScan.Pruned(scanned);
    PropertiesScan.ScanPropsWellFormed(Empty(), os, texts, |os|);
    PropertiesScan.PrunedWellFormed(scanned);
    PropertiesScan.PrunedKeeps(scanned);
    FirstRecordsOfTable(props, c);
    forall k ensures Get2(props, k, c) == if k in scanned.values && |scanned.values[k].keys| >= 2 then PropertiesScan.AllProps(os, texts, |os|, k, c) else [] {
      PropertiesScan.ScanPresence(os, texts, k, c);
    }
    forall p | p in FirstRecords(props, props.keys, c) ensures exists k :: SharedFirst(os, texts, k, c, p) {
      var k :| |Get2(props, k, c)| > 0 && p == Get2(props, k, c)[0];
      assert SharedFirst(os, texts, k, c, p);
    }
    forall p | exists k :: SharedFirst(os, texts, k, c, p) ensures p in FirstRecords(props, props.keys, c) {
      var k :| SharedFirst(os, texts, k, c, p);
      assert |Get2(props, k, c)| > 0 && p == Get2(props, k, c)[0];
    }
  }

  /** The inner `Object.keys(overrideProperties).forEach(...)` of parent `i`. */
  method PropertyChildren(dir: string, props: PropertiesScan.Props, c: string) returns (children: seq<PanelItem>)
    requires NoEmptyList(props)
    ensures children == PropertyItems(dir, FirstRecords(props, props.keys, c))
  {
    children := [];
    var keys := props.keys;
    var j := 0;
    while j < |keys|
      invariant 0 <= j <= |keys|
      invariant children == PropertyItems(dir, FirstRecords(props, keys[..j], c))
    {
      FirstRecordsSnoc(props, keys, c, j);
      var k := keys[j];
      if k in props.values && c in props.values[k].values {
        var propObj := props.values[k].values[c][0];
        children := children + [PropertyChild(dir, propObj)];
      }
      assert children == PropertyItems(dir, FirstRecords(props, keys[..j + 1], c));
      j := j + 1;
    }
    assert keys[..j] == keys;
  }

  /** `data.overrides.forEach(...)` of the `.properties` listing. */
  method BuildPropertiesTree(dir: string, data: FileData, props: PropertiesScan.Props) returns (tree: seq<PanelItem>)
    requires NoEmptyList(props)
    ensures tree == PropertiesTree(dir, data, props)
  {
    tree := [];
    var i := 0;
    while i < |data.overrides|
      invariant 0 <= i <= |data.overrides|
      invariant |tree| == i && forall j :: 0 <= j < i ==> tree[j] == PropertiesEntry(dir, data, props, j)
    {
      var children := PropertyChildren(dir, props, data.overrides[i].cartridge);
      tree := tree + [Parent(dir, data, "templates", data.name, i, children)];
      i := i + 1;
    }
  }

  // ---------------------------------------------------------------------
  // Lookup and dispatch

  /** The first entry whose description is the cartridge. */
  function FindByDescription(items: seq<PanelItem>, cartridge: string): (r: Option<PanelItem>)
    ensures r.Some? <==> exists i :: 0 <= i < |items| && items[i].description == Some(cartridge)
    ensures r.Some? ==> exists i :: 0 <= i < |items| && items[i] == r.value && items[i].description == Some(cartridge)
                          && forall j :: 0 <= j < i ==> items[j].description != Some(cartridge)
  {
    if |items| == 0 then None
    else if items[0].description == Some(cartridge) then Some(items[0])
    else
      var r := FindByDescription(items[1..], cartridge);
      assert forall i :: 1 <= i < |items| ==> items[i] == items[1..][i - 1];
      r
  }

  /** The generator `load` hands a file to. */
  datatype Generator = ControllerGen | ModelGen | ScriptGen | PropertiesGen | TemplateGen

  /** The file name's last dot-separated part is `properties`. */
  predicate IsPropertiesName(name: string) {
    LastPart(name, '.') == "properties"
  }

  /** `switch (override.type)`: a template named `*.properties` is a resource bundle; an unknown type has no generator. */
  function LoadTarget(data: FileData): (g: Option<Generator>)
    ensures g.None? <==> data.fileType == Unknown
    ensures g == Some(PropertiesGen) <==> data.fileType == Template && IsPropertiesName(data.name)
    ensures g == Some(TemplateGen) <==> data.fileType == Template && !IsPropertiesName(data.name)
  {
    match data.fileType
    case Controller => Some(ControllerGen)
    case Model => Some(ModelGen)
    case Script => Some(ScriptGen)
    case Template => if IsPropertiesName(data.name) then Some(PropertiesGen) else Some(TemplateGen)
    case Unknown => None
  }

  const PROPERTIES: string := "properties"

  /** A file is a resource bundle exactly when it is called `properties` or ends in `.properties`. */
  lemma PropertiesNameIff(name: string)
    ensures IsPropertiesName(name) <==>
      name == PROPERTIES || (|name| > |PROPERTIES| && name[|name| - |PROPERTIES| - 1..] == ['.'] + PROPERTIES)
  {
    assert '.' !in PROPERTIES;
    var n := |PROPERTIES|;
    if |name| > n && name[|name| - n - 1..] == ['.'] + PROPERTIES {
      var p := name[..|name| - n - 1];
      assert name == p + ['.'] + PROPERTIES;
      LastPartAfter(p, '.', PROPERTIES);
    }
    if name == PROPERTIES {
      FirstIndexFirst(PROPERTIES, '.');
    }
    if IsPropertiesName(name) {
      LastPartSuffix(name, '.');
      LastPartClean(name, '.');
      if |name| > n {
        assert name[|name| - n - 1..] == [name[|name| - n - 1]] + name[|name| - n..];
      }
    }
  }
}
