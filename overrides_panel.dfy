/**
 * The overrides panel of the current generation
 * (extension/CartridgeOverridesProvider.js): what it shows for the file
 * picked in the cartridge tree, and the `lastOpened` guard that skips a
 * file picked twice in a row.
 */
module OverridesPanel {
  import opened Wrappers
  import opened Dicts
  import opened TreeItems
  import opened OverrideIndex
  import opened Util
  import opened Constants
  import opened PanelTrees
  import RouteScan
  import PropertiesScan

  /** The two fields the panel keeps between calls. */
  datatype Panel = Panel(lastOpened: Option<string>, treeData: seq<PanelItem>)

  /** A generator's guard: the file just shown is skipped, any other one replaces the listing and becomes the last opened. */
  function Guarded(p: Panel, data: FileData, tree: seq<PanelItem>): (q: Panel)
    ensures p.lastOpened == Some(GuardKey(data)) ==> q == p
    ensures p.lastOpened != Some(GuardKey(data)) ==> q.lastOpened == Some(GuardKey(data)) && q.treeData == tree
  {
    if p.lastOpened == Some(GuardKey(data)) then p else Panel(Some(GuardKey(data)), tree)
  }

  /**
   * The listing each generator builds; `texts[i]` is the text of the
   * document of `data.overrides[i]`.
   */
  function Rendered(iconDir: string, data: FileData, texts: seq<string>, g: Generator): seq<PanelItem>
    requires |texts| == |data.overrides|
  {
    match g
    case ControllerGen =>
      var routes := RouteScan.ScanAll(Empty(), data.overrides, texts, |data.overrides|);
      RouteScan.ScanAllWellFormed(Empty(), data.overrides, texts, |data.overrides|);
      ControllerTree(iconDir, data, routes)
    case ModelGen => DefaultTree(false, iconDir, data, "models")
    case ScriptGen => DefaultTree(false, iconDir, data, "scripts")
    case TemplateGen => DefaultTree(false, iconDir, data, "templates")
    case PropertiesGen =>
      var scanned := PropertiesScan.ScanProps(Empty(), data.overrides, texts, |data.overrides|);
      PropertiesScan.ScanPropsWellFormed(Empty(), data.overrides, texts, |data.overrides|);
      PropertiesScan.PrunedWellFormed(scanned);
      PropertiesTree(iconDir, data, PropertiesScan.Pruned(scanned))
  }

  /** `load(override)`: nothing for a missing file or an unknown type, otherwise the generator its type selects. */
  function Loaded(iconDir: string, p: Panel, data: Option<FileData>, texts: seq<string>): Panel
    requires data.Some? ==> |texts| == |data.value.overrides|
  {
    if data.None? || LoadTarget(data.value).None? then p
    else Guarded(p, data.value, Rendered(iconDir, data.value, texts, LoadTarget(data.value).value))
  }

  /** `reset()` empties the listing but keeps the guard. */
  function Cleared(p: Panel): (q: Panel)
    ensures q.treeData == [] && q.lastOpened == p.lastOpened
  {
    Panel(p.lastOpened, [])
  }

  /** Picking the same file twice shows what picking it once shows. */
  lemma LoadIdempotent(iconDir: string, p: Panel, data: Option<FileData>, texts: seq<string>)
    requires data.Some? ==> |texts| == |data.value.overrides|
    ensures Loaded(iconDir, Loaded(iconDir, p, data, texts), data, texts) == Loaded(iconDir, p, data, texts)
  {
  }

  /**
   * A known file always ends up as the last opened one, and its listing is
   * rebuilt exactly when it was not the last opened one already.
   */
  lemma LoadGuard(iconDir: string, p: Panel, data: FileData, texts: seq<string>)
    requires |texts| == |data.overrides| && data.fileType != Unknown
    ensures Loaded(iconDir, p, Some(data), texts).lastOpened == Some(GuardKey(data))
    ensures p.lastOpened == Some(GuardKey(data)) ==> Loaded(iconDir, p, Some(data), texts) == p
    ensures p.lastOpened != Some(GuardKey(data)) ==>
      Loaded(iconDir, p, Some(data), texts).treeData == Rendered(iconDir, data, texts, LoadTarget(data).value)
  {
  }

  /** A missing file and a file of no known type leave the panel alone. */
  lemma LoadIgnores(iconDir: string, p: Panel, data: Option<FileData>, texts: seq<string>)
    requires data.None? || data.value.fileType == Unknown
    requires data.Some? ==> |texts| == |data.value.overrides|
    ensures Loaded(iconDir, p, data, texts) == p
  {
  }

  /**
   * After `reset()` the guard still holds the last file, so picking that
   * file again leaves the panel empty.
   */
  lemma ResetThenSameFile(iconDir: string, p: Panel, data: FileData, texts: seq<string>)
    requires |texts| == |data.overrides| && p.lastOpened == Some(GuardKey(data))
    ensures Loaded(iconDir, Cleared(p), Some(data), texts).treeData == []
  {
  }

  /**
   * The guard confuses files whose keys collide: picking cartridge `a`'s
   * `b_n` right after cartridge `a_b`'s `n` keeps the old listing.
   */
  lemma CollidingFileKeepsListing(iconDir: string, p: Panel, a: string, b: string, n: string,
                                  ovs: seq<Occurrence>, resource: string, t: FileType, texts: seq<string>)
    requires SEP !in b && '.' !in b && |texts| == |ovs|
    requires p.lastOpened == Some(GuardKey(FileData(a + "_" + b, n, ovs, resource, t)))
    ensures Loaded(iconDir, p, Some(FileData(a, b + "_" + n, ovs, resource, t)), texts) == p
  {
    GuardKeyCartridgeCollision(a, b, n, ovs, resource, t);
  }

  /**
   * The panel. `lastOpened` and `treeData` are the fields of the source's
   * provider; `iconDir` is the directory the icons are resolved against.
   */
  class OverridesProvider {
    var lastOpened: Option<string>
    var treeData: seq<PanelItem>
    const iconDir: string

    function State(): Panel
      reads this
    {
      Panel(lastOpened, treeData)
    }

    constructor(iconDir: string)
      ensures State() == Panel(None, []) && this.iconDir == iconDir
    {
      this.iconDir := iconDir;
      lastOpened := None;
      treeData := [];
    }

    /** `defaultGenerator(data, type)`: `true` when it went past the guard (`return this`). */
    method DefaultGenerator(data: FileData, kind: string) returns (generated: bool)
      modifies this
      ensures generated <==> old(lastOpened) != Some(GuardKey(data))
      ensures State() == Guarded(old(State()), data, DefaultTree(false, iconDir, data, kind))
    {
      var key := GuardKey(data);
      if lastOpened == Some(key) {
        return false;
      }
      var tree := BuildDefaultTree(false, iconDir, data, kind);
      treeData := tree;
      lastOpened := Some(key);
      generated := true;
    }

    /** `generateControllerTree(data)`, the documents' texts given. */
    method GenerateControllerTree(data: FileData, texts: seq<string>) returns (generated: bool)
      requires |texts| == |data.overrides|
      modifies this
      ensures generated <==> old(lastOpened) != Some(GuardKey(data))
      ensures State() == Guarded(old(State()), data, Rendered(iconDir, data, texts, ControllerGen))
    {
      var key := GuardKey(data);
      if lastOpened == Some(key) {
        return false;
      }
      var routes := RouteScan.CheckControllers(data.overrides, texts);
      RouteScan.ScanAllWellFormed(Empty(), data.overrides, texts, |data.overrides|);
      var tree := BuildControllerTree(iconDir, data, routes);
      treeData := tree;
      lastOpened := Some(key);
      generated := true;
    }

    /** `generatePropertiesTree(data)`, the documents' texts given. */
    method GeneratePropertiesTree(data: FileData, texts: seq<string>) returns (generated: bool)
      requires |texts| == |data.overrides|
      modifies this
      ensures generated <==> old(lastOpened) != Some(GuardKey(data))
      ensures State() == Guarded(old(State()), data, Rendered(iconDir, data, texts, PropertiesGen))
    {
      var key := GuardKey(data);
      if lastOpened == Some(key) {
        return false;
      }
      var scanned := PropertiesScan.CheckProperties(data.overrides, texts);
      PropertiesScan.ScanPropsWellFormed(Empty(), data.overrides, texts, |data.overrides|);
      var props := PropertiesScan.PruneProperties(scanned);
      PropertiesScan.PrunedWellFormed(scanned);
      var tree := BuildPropertiesTree(iconDir, data, props);
      treeData := tree;
      lastOpened := Some(key);
      generated := true;
    }

    method GenerateModelTree(data: FileData) returns (generated: bool)
      modifies this
      ensures generated <==> old(lastOpened) != Some(GuardKey(data))
      ensures State() == Guarded(old(State()), data, DefaultTree(false, iconDir, data, "models"))
    {
      generated := DefaultGenerator(data, "models");
    }

    method GenerateScriptTree(data: FileData) returns (generated: bool)
      modifies this
      ensures generated <==> old(lastOpened) != Some(GuardKey(data))
      ensures State() == Guarded(old(State()), data, DefaultTree(false, iconDir, data, "scripts"))
    {
      generated := DefaultGenerator(data, "scripts");
    }

    method GenerateTemplateTree(data: FileData) returns (generated: bool)
      modifies this
      ensures generated <==> old(lastOpened) != Some(GuardKey(data))
      ensures State() == Guarded(old(State()), data, DefaultTree(false, iconDir, data, "templates"))
    {
      generated := DefaultGenerator(data, "templates");
    }

    /** `load(override)`. */
    method Load(data: Option<FileData>, texts: seq<string>)
      requires data.Some? ==> |texts| == |data.value.overrides|
      modifies this
      ensures State() == Loaded(iconDir, old(State()), data, texts)
    {
      if data.None? {
        return;
      }
      var d := data.value;
      var g := LoadTarget(d);
      var generated := false;
      match g {
        case None =>
        case Some(ControllerGen) => generated := GenerateControllerTree(d, texts);
        case Some(ModelGen) => generated := GenerateModelTree(d);
        case Some(ScriptGen) => generated := GenerateScriptTree(d);
        case Some(PropertiesGen) => generated := GeneratePropertiesTree(d, texts);
        case Some(TemplateGen) => generated := GenerateTemplateTree(d);
      }
    }

    /** `reset()`. */
    method Reset()
      modifies this
      ensures State() == Cleared(old(State()))
    {
      treeData := [];
    }

    /** `getChildren(element)`: an entry's children, or the whole listing for the root. */
    method GetChildren(element: Option<PanelItem>) returns (items: seq<PanelItem>)
      ensures element.Some? ==> items == element.value.children
      ensures element.None? ==> items == treeData
    {
      items := if element.Some? then element.value.children else treeData;
    }

    /** `getElement(cartridge)`: the first entry labelled with the cartridge. */
    method GetElement(cartridge: string) returns (r: Option<PanelItem>)
      ensures r == FindByDescription(treeData, cartridge)
    {
      r := FindByDescription(treeData, cartridge);
    }
  }
}
