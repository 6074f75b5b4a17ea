/**
 * The overrides panel of the older generation (CartridgeOverridesProvider.js
 * at the repository root): four generators that only clear the listing,
 * and a template generator building the flat listing.
 */
module LegacyOverridesPanel {
  import opened Wrappers
  import opened TreeItems
  import opened PanelTrees
  import opened Util
  import OverridesPanel
  import Trie

  /**
   * `generateTemplateTree` as written: the root `util.js` exports no
   * `getIcon`, so the first entry throws a `TypeError` (`None` here) before
   * any field changes; with no occurrences the loop body never runs.
   */
  function TemplateTreeAsWritten(p: OverridesPanel.Panel, data: FileData): (r: Option<OverridesPanel.Panel>)
    ensures r.None? <==> p.lastOpened != Some(GuardKey(data)) && |data.overrides| > 0
    ensures r.Some? ==> r.value == OverridesPanel.Guarded(p, data, [])
  {
    if p.lastOpened == Some(GuardKey(data)) then Some(p)
    else if |data.overrides| > 0 then None
    else Some(OverridesPanel.Guarded(p, data, []))
  }

  /** `generateTemplateTree` with the icon helper of sfccCartridges.js, whose suffix is `-override`. */
  function TemplateTree(iconDir: string, p: OverridesPanel.Panel, data: FileData): OverridesPanel.Panel {
    OverridesPanel.Guarded(p, data, DefaultTree(true, iconDir, data, "templates"))
  }

  /**
   * Every template with at least one occurrence fails as written, while the
   * corrected generator shows one entry per occurrence, the last one with
   * the `templates` icon.
   */
  lemma TemplateTreeCorrects(iconDir: string, p: OverridesPanel.Panel, data: FileData)
    requires p.lastOpened != Some(GuardKey(data)) && |data.overrides| > 0
    ensures TemplateTreeAsWritten(p, data).None?
    ensures var q := TemplateTree(iconDir, p, data);
      && q.lastOpened == Some(GuardKey(data)) && |q.treeData| == |data.overrides|
      && q.treeData[|data.overrides| - 1].icon
         == Trie.Icon(true, iconDir, "templates", Selected(data, data.overrides[|data.overrides| - 1]))
  {
    DefaultTreeListing(true, iconDir, data, "templates");
  }

  /** Both agree where the as-written generator does not throw. */
  lemma TemplateTreeAgrees(iconDir: string, p: OverridesPanel.Panel, data: FileData)
    requires TemplateTreeAsWritten(p, data).Some?
    ensures TemplateTreeAsWritten(p, data).value == TemplateTree(iconDir, p, data)
  {
    if p.lastOpened != Some(GuardKey(data)) {
      assert DefaultTree(true, iconDir, data, "templates") == [];
    }
  }

  /** `load(override)`, with the corrected template generator. */
  function Loaded(iconDir: string, p: OverridesPanel.Panel, data: Option<FileData>): OverridesPanel.Panel {
    if data.None? || LoadTarget(data.value).None? then p
    else if LoadTarget(data.value) == Some(TemplateGen) then TemplateTree(iconDir, p, data.value)
    else OverridesPanel.Guarded(p, data.value, [])
  }

  /** Controllers, models, scripts and resource bundles always leave the panel empty. */
  lemma LoadOthersEmpty(iconDir: string, p: OverridesPanel.Panel, data: FileData)
    requires data.fileType != Unknown && LoadTarget(data) != Some(TemplateGen)
    ensures Loaded(iconDir, p, Some(data)).lastOpened == Some(GuardKey(data))
    ensures p.lastOpened != Some(GuardKey(data)) ==> Loaded(iconDir, p, Some(data)).treeData == []
  {
  }

  /** Picking the same file twice shows what picking it once shows. */
  lemma LoadIdempotent(iconDir: string, p: OverridesPanel.Panel, data: Option<FileData>)
    ensures Loaded(iconDir, Loaded(iconDir, p, data), data) == Loaded(iconDir, p, data)
  {
  }

  /** The older panel: the same two fields as the current one. */
  class OverridesProvider {
    var lastOpened: Option<string>
    var treeData: seq<PanelItem>
    const iconDir: string

    function State(): OverridesPanel.Panel
      reads this
    {
      OverridesPanel.Panel(lastOpened, treeData)
    }

    constructor(iconDir: string)
      ensures State() == OverridesPanel.Panel(None, []) && this.iconDir == iconDir
    {
      this.iconDir := iconDir;
      lastOpened := None;
      treeData := [];
    }

    /** The body the four placeholder generators share: past the guard the listing is emptied. */
    method ClearListing(data: FileData)
      modifies this
      ensures State() == OverridesPanel.Guarded(old(State()), data, [])
    {
      var key := GuardKey(data);
      if lastOpened == Some(key) {
        return;
      }
      treeData := [];
      lastOpened := Some(key);
    }

    method GenerateControllerTree(data: FileData)
      modifies this
      ensures State() == OverridesPanel.Guarded(old(State()), data, [])
    {
      ClearListing(data);
    }

    method GenerateModelTree(data: FileData)
      modifies this
      ensures State() == OverridesPanel.Guarded(old(State()), data, [])
    {
      ClearListing(data);
    }

    method GeneratePropertiesTree(data: FileData)
      modifies this
      ensures State() == OverridesPanel.Guarded(old(State()), data, [])
    {
      ClearListing(data);
    }

    method GenerateScriptTree(data: FileData)
      modifies this
      ensures State() == OverridesPanel.Guarded(old(State()), data, [])
    {
      ClearListing(data);
    }

    /** `generateTemplateTree(data)`, corrected: `true` when it went past the guard (`return this`). */
    method GenerateTemplateTree(data: FileData) returns (generated: bool)
      modifies this
      ensures generated <==> old(lastOpened) != Some(GuardKey(data))
      ensures State() == TemplateTree(iconDir, old(State()), data)
    {
      var key := GuardKey(data);
      if lastOpened == Some(key) {
        return false;
      }
      var tree := BuildDefaultTree(true, iconDir, data, "templates");
      treeData := tree;
      lastOpened := Some(key);
      generated := true;
    }

    /** `load(override)`. */
    method Load(data: Option<FileData>)
      modifies this
      ensures State() == Loaded(iconDir, old(State()), data)
    {
      if data.None? {
        return;
      }
      var d := data.value;
      match LoadTarget(d) {
        case None =>
        case Some(ControllerGen) => GenerateControllerTree(d);
        case Some(ModelGen) => GenerateModelTree(d);
        case Some(ScriptGen) => GenerateScriptTree(d);
        case Some(PropertiesGen) => GeneratePropertiesTree(d);
        case Some(TemplateGen) => var generated := GenerateTemplateTree(d);
      }
    }

    /** `reset()`. */
    method Reset()
      modifies this
      ensures State() == OverridesPanel.Cleared(old(State()))
    {
      treeData := [];
    }

    /** `getChildren(element)`. */
    method GetChildren(element: Option<PanelItem>) returns (items: seq<PanelItem>)
      ensures element.Some? ==> items == element.value.children
      ensures element.None? ==> items == treeData
    {
      items := if element.Some? then element.value.children else treeData;
    }

    /** `getElement(cartridge)`. */
    method GetElement(cartridge: string) returns (r: Option<PanelItem>)
      ensures r == FindByDescription(treeData, cartridge)
    {
      r := FindByDescription(treeData, cartridge);
    }
  }
}
