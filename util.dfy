/**
 * The helpers of extension/util.js: classifying a file path, naming tree
 * icons, and the prefix of a log line.
 */
module Util {
  import opened Strings
  import opened Wrappers

  /** The SFCC file types `getType` tells apart. */
  datatype FileType = Controller | Model | Script | Template | Unknown

  function TypeName(t: FileType): string {
    match t
    case Controller => "controller"
    case Model => "model"
    case Script => "script"
    case Template => "template"
    case Unknown => "unknown"
  }

  const CONTROLLERS_DIR: string := "/controllers/"
  const MODELS_DIR: string := "/models/"
  const SCRIPTS_DIR: string := "/scripts/"
  const TEMPLATES_DIR: string := "/templates/"

  /** `marker` occurs somewhere in `file`, at any depth. */
  ghost predicate Occurs(file: string, marker: string) {
    exists i :: OccursAt(file, marker, i)
  }

  /**
   * `getType`: the first of controllers, models, scripts, templates whose
   * `/<folder>/` occurs anywhere in the path decides the type.
   */
  function GetType(file: string): (r: FileType)
    ensures r == Controller <==> Occurs(file, CONTROLLERS_DIR)
    ensures r == Model <==> !Occurs(file, CONTROLLERS_DIR) && Occurs(file, MODELS_DIR)
    ensures r == Script <==> !Occurs(file, CONTROLLERS_DIR) && !Occurs(file, MODELS_DIR) && Occurs(file, SCRIPTS_DIR)
    ensures r == Template <==> !Occurs(file, CONTROLLERS_DIR) && !Occurs(file, MODELS_DIR)
                               && !Occurs(file, SCRIPTS_DIR) && Occurs(file, TEMPLATES_DIR)
    ensures r == Unknown <==> !Occurs(file, CONTROLLERS_DIR) && !Occurs(file, MODELS_DIR)
                              && !Occurs(file, SCRIPTS_DIR) && !Occurs(file, TEMPLATES_DIR)
  {
    ContainsIff(file, CONTROLLERS_DIR);
    ContainsIff(file, MODELS_DIR);
    ContainsIff(file, SCRIPTS_DIR);
    ContainsIff(file, TEMPLATES_DIR);
    if Contains(file, CONTROLLERS_DIR) then Controller
    else if Contains(file, MODELS_DIR) then Model
    else if Contains(file, SCRIPTS_DIR) then Script
    else if Contains(file, TEMPLATES_DIR) then Template
    else Unknown
  }

  /** A `/controllers/` folder at any depth makes a controller, whatever else the path holds. */
  lemma ControllerAtAnyDepth(before: string, after: string)
    ensures GetType(before + CONTROLLERS_DIR + after) == Controller
  {
    ContainsInfix(before, CONTROLLERS_DIR, after);
    ContainsIff(before + CONTROLLERS_DIR + after, CONTROLLERS_DIR);
  }

  /** A `/templates/` folder counts only when no earlier folder name of the list occurs. */
  lemma TemplateLosesToScript(before: string, middle: string, after: string)
    requires !Occurs(before + SCRIPTS_DIR + middle + TEMPLATES_DIR + after, CONTROLLERS_DIR)
    requires !Occurs(before + SCRIPTS_DIR + middle + TEMPLATES_DIR + after, MODELS_DIR)
    ensures GetType(before + SCRIPTS_DIR + middle + TEMPLATES_DIR + after) == Script
  {
    var s := before + SCRIPTS_DIR + middle + TEMPLATES_DIR + after;
    assert s == before + SCRIPTS_DIR + (middle + TEMPLATES_DIR + after);
    ContainsInfix(before, SCRIPTS_DIR, middle + TEMPLATES_DIR + after);
    ContainsIff(s, SCRIPTS_DIR);
  }

  /** The light and dark icon paths of a tree item. */
  datatype IconPath = IconPath(light: string, dark: string)

  const ACTIVE_SUFFIX: string := "-active"

  /** The icon file name: the type, the suffix when the count is positive, then `.svg`; an absent count is 0. */
  function IconFile(kind: string, count: int, suffix: string): string {
    kind + (if count > 0 then suffix else "") + ".svg"
  }

  /** `path.join(dir, 'resources', theme, file)` for the directory `dir` of the module. */
  function ThemedPath(dir: string, theme: string, file: string): string {
    dir + "/resources/" + theme + "/" + file
  }

  /**
   * `getIcon(type, overrideCount)` of extension/util.js; `dir` is the
   * directory of that file (`path.join(__filename, '..')`).
   */
  function GetIcon(dir: string, kind: string, count: int): (r: IconPath)
    ensures count > 0 ==> r == IconPath(dir + "/resources/light/" + kind + "-active.svg", dir + "/resources/dark/" + kind + "-active.svg")
    ensures count <= 0 ==> r == IconPath(dir + "/resources/light/" + kind + ".svg", dir + "/resources/dark/" + kind + ".svg")
    ensures r.light == dir + "/resources/light/" + kind + "-active.svg" <==> count > 0
  {
    var file := IconFile(kind, count, ACTIVE_SUFFIX);
    ThemedFiles(dir, kind, count, ACTIVE_SUFFIX);
    IconPath(ThemedPath(dir, "light", file), ThemedPath(dir, "dark", file))
  }

  /** Both theme paths of one icon file, spelt out for either value of the count. */
  lemma ThemedFiles(dir: string, kind: string, count: int, suffix: string)
    requires |suffix| > 0
    ensures var file := IconFile(kind, count, suffix);
      && (count > 0 ==>
            ThemedPath(dir, "light", file) == dir + "/resources/light/" + kind + suffix + ".svg" &&
            ThemedPath(dir, "dark", file) == dir + "/resources/dark/" + kind + suffix + ".svg")
      && (count <= 0 ==>
            ThemedPath(dir, "light", file) == dir + "/resources/light/" + kind + ".svg" &&
            ThemedPath(dir, "dark", file) == dir + "/resources/dark/" + kind + ".svg")
      && (ThemedPath(dir, "light", file) == dir + "/resources/light/" + kind + suffix + ".svg" <==> count > 0)
  {
    var file := IconFile(kind, count, suffix);
    assert dir + "/resources/" + "light" + "/" + file == dir + "/resources/light/" + file;
    assert dir + "/resources/" + "dark" + "/" + file == dir + "/resources/dark/" + file;
    if count > 0 {
      assert file == kind + suffix + ".svg";
      assert dir + "/resources/light/" + file == dir + "/resources/light/" + kind + suffix + ".svg";
      assert dir + "/resources/dark/" + file == dir + "/resources/dark/" + kind + suffix + ".svg";
    } else {
      assert file == kind + ".svg";
      assert dir + "/resources/light/" + file == dir + "/resources/light/" + kind + ".svg";
      assert dir + "/resources/dark/" + file == dir + "/resources/dark/" + kind + ".svg";
      assert |dir + "/resources/light/" + kind + suffix + ".svg"| != |dir + "/resources/light/" + kind + ".svg"|;
    }
  }

  /** The file is `<type><suffix>.svg` exactly when the count is positive, `<type>.svg` otherwise. */
  lemma IconFileActive(kind: string, count: int, suffix: string)
    requires |suffix| > 0
    ensures IconFile(kind, count, suffix) == kind + suffix + ".svg" <==> count > 0
    ensures IconFile(kind, count, suffix) == kind + ".svg" <==> count <= 0
  {
    assert |kind + suffix + ".svg"| != |kind + ".svg"|;
  }

  /** The two themes name the same file under folders that differ only in the theme. */
  lemma GetIconThemes(dir: string, kind: string, count: int)
    ensures exists file :: GetIcon(dir, kind, count).light == dir + "/resources/light/" + file
                        && GetIcon(dir, kind, count).dark == dir + "/resources/dark/" + file
  {
    var file := IconFile(kind, count, ACTIVE_SUFFIX);
    assert GetIcon(dir, kind, count).light == dir + "/resources/light/" + file;
    assert GetIcon(dir, kind, count).dark == dir + "/resources/dark/" + file;
  }

  /** The icon `logger` puts before a message of the given type. */
  function LogIcon(kind: string): string {
    if kind == "debug" then "\U{203A} "
    else if kind == "error" then "\U{2716} "
    else if kind == "success" then "\U{2714} "
    else if kind == "warn" then "\U{26A0} "
    else ""
  }

  /**
   * The line `logger(message, type)` appends to the output channel: a
   * newline when a (non-empty) type is given, the type's icon, the message.
   */
  function LogLine(message: string, kind: Option<string>): (r: string)
    ensures |r| >= |message| && r[|r| - |message|..] == message
  {
    var newLine := if kind.Some? && kind.value != "" then "\n" else "";
    var icon := if kind.Some? then LogIcon(kind.value) else "";
    newLine + icon + message
  }

  /** The line starts with a newline iff a type is given, and then carries the icon of that type. */
  lemma LogLinePrefix(message: string, kind: string)
    ensures kind != "" ==> LogLine(message, Some(kind)) == "\n" + LogIcon(kind) + message
    ensures kind == "" ==> LogLine(message, Some(kind)) == message
    ensures LogLine(message, None) == message
  {
  }

  /** Exactly the four known types get an icon, and each icon is a symbol followed by a space. */
  lemma LogIconKnown(kind: string)
    ensures LogIcon(kind) != "" <==> kind in {"debug", "error", "success", "warn"}
    ensures LogIcon(kind) != "" ==> |LogIcon(kind)| == 2 && LogIcon(kind)[1] == ' '
  {
  }
}
