/**
 * `ReadConfig`: the game's settings (window size, language, full-screen
 * flag) come from an XML file of `param` elements under a `config` root;
 * when the file is missing, a default file is written. The file system and
 * the XML parser are outside the model: the file arrives already parsed as
 * a `ConfigFile`, and the file written is returned as a `Document`.
 */
module Config {
  import opened Wrappers
  import opened QtText

  const SCREEN_WIDTH: int := 800
  const SCREEN_HEIGHT: int := 600

  /** The `OGGameConfig` struct. */
  datatype GameConfig = GameConfig(screenWidth: int, screenHeight: int, language: string, fullscreen: bool)

  /**
   * A child of the root: an element with its tag and attributes, or any
   * other kind of DOM node (text, comment, ...), whose `toElement()` is the
   * null element.
   */
  datatype Node = Element(tag: string, attributes: map<string, string>) | NonElement

  datatype Document = Document(rootTag: string, children: seq<Node>)

  /** What opening and parsing `./resources/config.xml` yields. */
  datatype ConfigFile = NotFound | Unparseable | Found(doc: Document)

  /** `QDomElement::tagName()`; the null element has an empty tag. */
  function TagName(n: Node): string {
    if n.Element? then n.tag else ""
  }

  /** `QDomElement::attribute(name, "")`: the attribute's value, or the empty string when it is absent. */
  function Attribute(n: Node, name: string): string {
    if n.Element? && name in n.attributes then n.attributes[name] else ""
  }

  /** The defaults `ReadConfig` sets before it opens the file; the language is left as the caller had it. */
  function WithDefaults(c: GameConfig): GameConfig {
    c.(screenWidth := SCREEN_WIDTH, screenHeight := SCREEN_HEIGHT, fullscreen := true)
  }

  /** One pass of the sibling loop: a `param` child with a known `name` overwrites one field. */
  function ApplyParam(c: GameConfig, n: Node): GameConfig {
    if TagName(n) == "param" then
      var attribute := Attribute(n, "name");
      if attribute == "screen_width" then c.(screenWidth := ToInt(Attribute(n, "value")))
      else if attribute == "screen_height" then c.(screenHeight := ToInt(Attribute(n, "value")))
      else if attribute == "language" then c.(language := Attribute(n, "value"))
      else if attribute == "fullscreen" then c.(fullscreen := Attribute(n, "value") == "true")
      else c
    else c
  }

  /** The children processed in sibling order, first to last. */
  function ApplyParams(c: GameConfig, nodes: seq<Node>): GameConfig {
    if nodes == [] then c else ApplyParam(ApplyParams(c, nodes[..|nodes| - 1]), nodes[|nodes| - 1])
  }

  /** The configuration `ReadConfig` leaves behind, given what the file turned out to be. */
  function Interpret(prior: GameConfig, file: ConfigFile): GameConfig {
    match file
    case Found(doc) =>
      if doc.rootTag == "config" then ApplyParams(WithDefaults(prior), doc.children) else WithDefaults(prior)
    case _ => WithDefaults(prior)
  }

  // ---------------------------------------------------------------------
  // The four settings, named independently of the loop that reads them
  // ---------------------------------------------------------------------

  datatype Setting = ScreenWidth | ScreenHeight | Language | Fullscreen

  /** The `name` attribute that selects a setting. */
  function SettingName(k: Setting): string {
    match k
    case ScreenWidth => "screen_width"
    case ScreenHeight => "screen_height"
    case Language => "language"
    case Fullscreen => "fullscreen"
  }

  datatype Value = IntValue(i: int) | TextValue(s: string) | BoolValue(b: bool)

  /** The field of a configuration that holds a setting. */
  function Get(c: GameConfig, k: Setting): Value {
    match k
    case ScreenWidth => IntValue(c.screenWidth)
    case ScreenHeight => IntValue(c.screenHeight)
    case Language => TextValue(c.language)
    case Fullscreen => BoolValue(c.fullscreen)
  }

  /** How a `value` attribute is read for a setting: a number, the text itself, or "is it exactly `true`". */
  function Converted(k: Setting, value: string): Value {
    match k
    case ScreenWidth => IntValue(ToInt(value))
    case ScreenHeight => IntValue(ToInt(value))
    case Language => TextValue(value)
    case Fullscreen => BoolValue(value == "true")
  }

  predicate SetsSetting(n: Node, k: Setting) {
    TagName(n) == "param" && Attribute(n, "name") == SettingName(k)
  }

  /** A child that the loop acts on: a `param` element naming one of the four settings. */
  predicate Recognised(n: Node) {
    SetsSetting(n, ScreenWidth) || SetsSetting(n, ScreenHeight) || SetsSetting(n, Language) || SetsSetting(n, Fullscreen)
  }

  /** `nodes[j]` is the last child in document order that sets `k`. */
  predicate IsLastFor(nodes: seq<Node>, k: Setting, j: int) {
    0 <= j < |nodes| && SetsSetting(nodes[j], k) && forall m :: j < m < |nodes| ==> !SetsSetting(nodes[m], k)
  }

  // ---------------------------------------------------------------------
  // Properties
  // ---------------------------------------------------------------------

  /** A child changes exactly the setting it names, to its converted value, and leaves every other setting alone. */
  lemma ApplyParamFrame(c: GameConfig, n: Node, k: Setting)
    ensures Get(ApplyParam(c, n), k) == if SetsSetting(n, k) then Converted(k, Attribute(n, "value")) else Get(c, k)
  {
  }

  /** Children that are not recognised params leave the configuration as it was. */
  lemma {:induction false} UnrecognisedChildrenIgnored(c: GameConfig, nodes: seq<Node>)
    requires forall m :: 0 <= m < |nodes| ==> !Recognised(nodes[m])
    ensures ApplyParams(c, nodes) == c
  {
    if nodes != [] {
      UnrecognisedChildrenIgnored(c, nodes[..|nodes| - 1]);
    }
  }

  /** Processing two runs of children one after the other is processing their concatenation. */
  lemma {:induction false} ApplyParamsAppend(c: GameConfig, a: seq<Node>, b: seq<Node>)
    ensures ApplyParams(c, a + b) == ApplyParams(ApplyParams(c, a), b)
    decreases |b|
  {
    if b == [] {
      assert a + b == a;
    } else {
      assert (a + b)[..|a + b| - 1] == a + b[..|b| - 1];
      ApplyParamsAppend(c, a, b[..|b| - 1]);
    }
  }

  /** An unrecognised child can be removed from anywhere among the siblings without changing the outcome. */
  lemma UnrecognisedChildAnywhere(c: GameConfig, a: seq<Node>, n: Node, b: seq<Node>)
    requires !Recognised(n)
    ensures ApplyParams(c, a + [n] + b) == ApplyParams(c, a + b)
  {
    ApplyParamsAppend(c, a + [n], b);
    ApplyParamsAppend(c, a, [n]);
    ApplyParamsAppend(c, a, b);
    assert ApplyParams(ApplyParams(c, a), [n]) == ApplyParam(ApplyParams(c, a), n);
  }

  /** A setting that no child names keeps the value it had before the loop. */
  lemma {:induction false} UnnamedSettingKept(c: GameConfig, nodes: seq<Node>, k: Setting)
    requires forall m :: 0 <= m < |nodes| ==> !SetsSetting(nodes[m], k)
    ensures Get(ApplyParams(c, nodes), k) == Get(c, k)
  {
    if nodes != [] {
      UnnamedSettingKept(c, nodes[..|nodes| - 1], k);
      ApplyParamFrame(ApplyParams(c, nodes[..|nodes| - 1]), nodes[|nodes| - 1], k);
    }
  }

  /** When a setting is named more than once, the last occurrence in document order decides it. */
  lemma {:induction false} LastOccurrenceWins(c: GameConfig, nodes: seq<Node>, k: Setting, j: int)
    requires IsLastFor(nodes, k, j)
    ensures Get(ApplyParams(c, nodes), k) == Converted(k, Attribute(nodes[j], "value"))
  {
    var p := nodes[..|nodes| - 1];
    ApplyParamFrame(ApplyParams(c, p), nodes[|nodes| - 1], k);
    if j < |nodes| - 1 {
      assert IsLastFor(p, k, j);
      LastOccurrenceWins(c, p, k, j);
    }
  }

  /** After a `fullscreen` param, full screen is on exactly when its `value` is the string `true`; any other or a missing value turns it off. */
  lemma FullscreenOnlyForTrue(c: GameConfig, nodes: seq<Node>, j: int)
    requires IsLastFor(nodes, Fullscreen, j)
    ensures ApplyParams(c, nodes).fullscreen <==> "value" in nodes[j].attributes && nodes[j].attributes["value"] == "true"
  {
    LastOccurrenceWins(c, nodes, Fullscreen, j);
  }

  /** Without a readable file whose root is `config`, the result is the defaults: 800 by 600, full screen, language untouched. */
  lemma DefaultsWithoutConfigDocument(prior: GameConfig, file: ConfigFile)
    requires !file.Found? || file.doc.rootTag != "config"
    ensures Interpret(prior, file) == GameConfig(800, 600, prior.language, true)
  {
  }

  // ---------------------------------------------------------------------
  // The imperative code
  // ---------------------------------------------------------------------

  function ParamElement(name: string, value: string): Node {
    Element("param", map["name" := name, "value" := value])
  }

  lemma WidthParamRead(c: GameConfig, value: string)
    ensures ApplyParam(c, ParamElement("screen_width", value)) == c.(screenWidth := ToInt(value))
  {
    var n := ParamElement("screen_width", value);
    assert Attribute(n, "name") == "screen_width" && Attribute(n, "value") == value;
  }

  lemma HeightParamRead(c: GameConfig, value: string)
    ensures ApplyParam(c, ParamElement("screen_height", value)) == c.(screenHeight := ToInt(value))
  {
    var n := ParamElement("screen_height", value);
    assert Attribute(n, "name") == "screen_height" && Attribute(n, "value") == value;
    assert "screen_height" != "screen_width";
  }

  lemma FullscreenParamRead(c: GameConfig, value: string)
    ensures ApplyParam(c, ParamElement("fullscreen", value)) == c.(fullscreen := value == "true")
  {
    var n := ParamElement("fullscreen", value);
    assert Attribute(n, "name") == "fullscreen" && Attribute(n, "value") == value;
    assert "fullscreen" != "screen_width" && "fullscreen" != "screen_height" && "fullscreen" != "language";
  }

  /** Reading back the three params of the default file sets the window size from their numbers and full screen from their flag. */
  lemma DefaultParamsReadBack(c: GameConfig, width: string, height: string, fullscreen: string)
    ensures ApplyParams(c, [ParamElement("screen_width", width), ParamElement("screen_height", height), ParamElement("fullscreen", fullscreen)])
            == c.(screenWidth := ToInt(width), screenHeight := ToInt(height), fullscreen := fullscreen == "true")
  {
    var w, h, f := ParamElement("screen_width", width), ParamElement("screen_height", height), ParamElement("fullscreen", fullscreen);
    var nodes := [w, h, f];
    assert nodes[..2] == [w, h] && [w, h][..1] == [w] && [w][..0] == [];
    WidthParamRead(c, width);
    var c1 := c.(screenWidth := ToInt(width));
    HeightParamRead(c1, height);
    var c2 := c1.(screenHeight := ToInt(height));
    FullscreenParamRead(c2, fullscreen);
    assert ApplyParams(c, [w]) == c1;
    assert ApplyParams(c, [w, h]) == c2;
  }

  /**
   * The default file `ReadConfig` writes when none exists: a `config` root holding the window
   * size constants and the current full-screen flag, written one element
   * at a time. Reading it back from any configuration sets exactly those.
   */
  method WriteDefaultConfig(config: GameConfig) returns (doc: Document)
    ensures doc.rootTag == "config" && |doc.children| == 3
    ensures forall m :: 0 <= m < |doc.children| ==> TagName(doc.children[m]) == "param"
    ensures forall c :: ApplyParams(c, doc.children)
                        == c.(screenWidth := SCREEN_WIDTH, screenHeight := SCREEN_HEIGHT, fullscreen := config.fullscreen)
  {
    var width, height := NumberToString(SCREEN_WIDTH), NumberToString(SCREEN_HEIGHT);
    var value := if config.fullscreen then "true" else "false";
    var children: seq<Node> := [];
    children := children + [ParamElement("screen_width", width)];
    children := children + [ParamElement("screen_height", height)];
    children := children + [ParamElement("fullscreen", value)];
    doc := Document("config", children);
    assert children == [ParamElement("screen_width", width), ParamElement("screen_height", height), ParamElement("fullscreen", value)];
    forall m | 0 <= m < |children| ensures TagName(children[m]) == "param" {
      assert children[m] in children;
    }
    NumberRoundTrip(SCREEN_WIDTH);
    NumberRoundTrip(SCREEN_HEIGHT);
    forall c: GameConfig
      ensures ApplyParams(c, children)
              == c.(screenWidth := SCREEN_WIDTH, screenHeight := SCREEN_HEIGHT, fullscreen := config.fullscreen)
    {
      DefaultParamsReadBack(c, width, height, value);
    }
  }

  /**
   * `ReadConfig`: start from the defaults, then either take the settings
   * from a `config` document child by child, keep the defaults for an
   * unreadable or foreign document, or write the default file when there
   * is none.
   */
  method ReadConfig(prior: GameConfig, file: ConfigFile) returns (config: GameConfig, written: Option<Document>)
    ensures config == Interpret(prior, file)
    ensures written.Some? <==> file.NotFound?
    ensures written.Some? ==> Interpret(prior, Found(written.value)) == config
  {
    config := prior.(screenWidth := SCREEN_WIDTH, screenHeight := SCREEN_HEIGHT, fullscreen := true);
    written := None;
    match file {
      case NotFound =>
        var doc := WriteDefaultConfig(config);
        written := Some(doc);
      case Unparseable =>
      case Found(doc) =>
        if doc.rootTag != "config" {
          return;
        }
        var i := 0;
        while i < |doc.children|
          invariant 0 <= i <= |doc.children|
          invariant config == ApplyParams(WithDefaults(prior), doc.children[..i])
        {
          var n := doc.children[i];
          if TagName(n) == "param" {
            var attribute := Attribute(n, "name");
            if attribute == "screen_width" {
              config := config.(screenWidth := ToInt(Attribute(n, "value")));
            } else if attribute == "screen_height" {
              config := config.(screenHeight := ToInt(Attribute(n, "value")));
            } else if attribute == "language" {
              config := config.(language := Attribute(n, "value"));
            } else if attribute == "fullscreen" {
              if Attribute(n, "value") == "true" {
                config := config.(fullscreen := true);
              } else {
                config := config.(fullscreen := false);
              }
            }
          }
          assert doc.children[..i + 1][..i] == doc.children[..i];
          i := i + 1;
        }
        assert doc.children[..i] == doc.children;
    }
  }
}
