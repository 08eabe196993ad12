# OpenGOO start-up: run parameters and configuration file

This project models the two computational pieces of OpenGOO's program entry
point, `src/opengoo/src/main.cpp`, and proves what they promise.

1. **Run parameters.** `main` walks `argv` from the second entry on and
   compares each argument case-insensitively with `-debug`, `-opengl`,
   `-text` and `-fps`. Each match ORs fixed mode bits into the program-wide
   `flag`:
   - `-debug` adds DEBUG;
   - `-opengl` adds OPENGL and FPS;
   - `-text` adds ONLYTEXT and DEBUG;
   - `-fps` adds FPS.

   Any other argument is ignored. The model is module `LaunchFlags`. The
   class `ProgramState` holds `flag`, and its method `CheckRunParameters`
   is the loop.
2. **Configuration.** `ReadConfig` first sets the defaults: 800 by 600,
   full screen, and the language left as the caller had it. Then:
   - if `./resources/config.xml` parses and its root is `config`, the
     `param` children are applied in sibling order;
   - if the root is some other tag, or the file does not parse, the
     defaults stay;
   - if the file cannot be opened, a default file with three `param`
     elements is written.

   The model is module `Config`. `ReadConfig` is a method with the sibling
   loop, and `WriteDefaultConfig` builds the default document one element
   at a time.

Module `QtText` models the Qt string services these rely on:
`QString::compare(..., Qt::CaseInsensitive)`, `QString::toInt`, which gives
0 for anything that is not a decimal `int`, and `QString::number`.
Module `Wrappers` holds `Option`.

Modelling choices:
- The file and the XML parser are parameters. `ReadConfig` receives a
  `ConfigFile`: `NotFound`, `Unparseable`, or `Found` of a `Document` (a
  root tag and a sequence of child nodes). It returns the new configuration
  and the `Document` it would write, if any.
- A child node is an element (a tag and an attribute map) or a
  non-element. For a non-element, `toElement()` gives the null element,
  whose tag is empty.
- The `OGGameConfig` struct is the datatype `GameConfig`. `ReadConfig`
  writes it through a pointer; the model returns it as a value.
- The bit values of `flags.h` are not part of this model. STANDARD is taken
  as the empty mask and the other four as distinct single bits. A mask is
  therefore modelled as the set of modes whose bits it holds: `|` is set
  union and `flag & X` is membership.
- The code writes no `language` param into the default file, although the
  file format also knows a `language` setting. The model follows the code.

## Model

| member | source | states |
|---|---|---|
| `LaunchFlags.Spells` | src/opengoo/src/main.cpp:83-93 | the case-insensitive test of an argument against one lower-case option; no contract of its own, characterised by `LaunchFlags.SpellsIsCaseInsensitiveComparison` |
| `LaunchFlags.OptionBits` | src/opengoo/src/main.cpp:83-95 | the if-else chain: the bits one argument adds; no contract of its own, characterised by `LaunchFlags.CaseInsensitiveOptions`, `LaunchFlags.UpperCaseSpellings` and `LaunchFlags.AccumulatedBitsByOption` |
| `LaunchFlags.Parameters` | src/opengoo/src/main.cpp:80 | the arguments the loop visits, from index 1 on; no contract of its own, used in the ensures of `LaunchFlags.ProgramState.CheckRunParameters` |
| `LaunchFlags.AccumulatedBits` | src/opengoo/src/main.cpp:80-96 | the loop's OR-assignments to `flag` as a left-to-right fold; no contract of its own, characterised by `LaunchFlags.AccumulatedBitsByOption`, `LaunchFlags.OrderIrrelevant` and `LaunchFlags.BitsOnlyAdded` |
| `QtText.EqualsIgnoreCase` | src/opengoo/src/main.cpp:83 | `compare(..., Qt::CaseInsensitive) == 0`; no contract of its own, characterised by `QtText.EqualsIgnoreCaseCharacterwise` |
| `QtText.NumberToString` | src/opengoo/src/main.cpp:228 | `QString::number` for an `int`; no contract of its own, characterised by `QtText.NumberRoundTrip` |
| `Config.TagName` | src/opengoo/src/main.cpp:179-181 | `n.toElement().tagName()`, empty for a non-element; no contract of its own, used by `Config.ApplyParam` |
| `Config.Attribute` | src/opengoo/src/main.cpp:183 | `attribute(name, "")`, empty when absent; no contract of its own, used by `Config.ApplyParam`; a missing `value` reads as the empty string, which `Config.FullscreenOnlyForTrue` and `QtText.NoDigitsGivesZero` cover |
| `Config.WithDefaults` | src/opengoo/src/main.cpp:153-159 | the defaults written before the file is read; no contract of its own, characterised by `Config.DefaultsWithoutConfigDocument` |
| `Config.ApplyParam` | src/opengoo/src/main.cpp:181-205 | one pass of the sibling loop; no contract of its own, characterised by `Config.ApplyParamFrame` and the three `...ParamRead` lemmas |
| `Config.ApplyParams` | src/opengoo/src/main.cpp:177-206 | the sibling loop as a fold in document order; no contract of its own, characterised by `Config.LastOccurrenceWins`, `Config.UnnamedSettingKept`, `Config.UnrecognisedChildrenIgnored` and `Config.ApplyParamsAppend` |
| `Config.Interpret` | src/opengoo/src/main.cpp:153-214 | the configuration `ReadConfig` leaves for each kind of file; no contract of its own, characterised by `Config.DefaultsWithoutConfigDocument` and used in the ensures of `Config.ReadConfig` |
| `LaunchFlags.ProgramState.CheckRunParameters` | src/opengoo/src/main.cpp:80-96 | after the loop, `flag` is its old value united with the bits of the arguments after `argv[0]`; no bit it had is lost |
| `LaunchFlags.AccumulatedBitsByOption` | src/opengoo/src/main.cpp:80-96 | the accumulated flags equal an order-free reference: DEBUG iff `-debug` or `-text` occurs, OPENGL iff `-opengl`, FPS iff `-opengl` or `-fps`, ONLYTEXT iff `-text` |
| `LaunchFlags.ModesSwitchedOn` | src/opengoo/src/main.cpp:83-95 | each mode is in the result exactly when an option carrying that mode was given, in both directions |
| `LaunchFlags.OrderIrrelevant` | src/opengoo/src/main.cpp:80-96 | any permutation of the arguments gives the same flags |
| `LaunchFlags.BitsOnlyAdded` | src/opengoo/src/main.cpp:80-96 | the flags after a prefix of the arguments are contained in the flags after the whole list |
| `LaunchFlags.UnknownArgumentIgnored` | src/opengoo/src/main.cpp:80-96 | removing an argument that is none of the four options, from any position, leaves the flags unchanged |
| `LaunchFlags.StandardModeIffNoOption` | src/opengoo/src/main.cpp:80-97 | `flag` stays STANDARD exactly when no argument is a recognised option |
| `LaunchFlags.CaseInsensitiveOptions` | src/opengoo/src/main.cpp:83-93 | two arguments that are equal up to case contribute the same bits |
| `LaunchFlags.UpperCaseSpellings` | src/opengoo/src/main.cpp:83-93 | `-DEBUG`, `-OpenGL`, `-TEXT` and `-FPS` select the same bits as their lower-case spellings |
| `LaunchFlags.SpellsIsCaseInsensitiveComparison` | src/opengoo/src/main.cpp:83-93 | matching the folded argument against each lower-case option is the same as Qt's case-insensitive comparison with it |
| `QtText.EqualsIgnoreCaseCharacterwise` | src/opengoo/src/main.cpp:83 | case-insensitive equality holds exactly when the lengths match and every position agrees after case folding |
| `QtText.ToInt` | src/opengoo/src/main.cpp:187 | the converted value always lies in the 32-bit `int` range |
| `QtText.NoDigitsGivesZero` | src/opengoo/src/main.cpp:187 | a value containing no decimal digit converts to 0; this covers empty and missing values |
| `QtText.NumberRoundTrip` | src/opengoo/src/main.cpp:228 | converting the text `QString::number` writes for an `int` gives back that `int` |
| `Config.ApplyParamFrame` | src/opengoo/src/main.cpp:181-205 | one child sets exactly the setting its `name` selects, to its converted `value`; every other setting is unchanged |
| `Config.WidthParamRead` | src/opengoo/src/main.cpp:185-188 | a `screen_width` param sets only the width, to `toInt` of its value |
| `Config.HeightParamRead` | src/opengoo/src/main.cpp:189-192 | a `screen_height` param sets only the height, to `toInt` of its value |
| `Config.FullscreenParamRead` | src/opengoo/src/main.cpp:197-204 | a `fullscreen` param sets only the flag, to whether its value is `true` |
| `Config.UnrecognisedChildrenIgnored` | src/opengoo/src/main.cpp:177-206 | children that are not `param` elements with a known name leave the whole configuration unchanged |
| `Config.UnrecognisedChildAnywhere` | src/opengoo/src/main.cpp:177-206 | removing an unrecognised child from any position among the siblings does not change the result |
| `Config.UnnamedSettingKept` | src/opengoo/src/main.cpp:177-206 | a setting that no child names keeps the value it had before the loop |
| `Config.LastOccurrenceWins` | src/opengoo/src/main.cpp:177-206 | when several children name a setting, the last one in document order determines it |
| `Config.FullscreenOnlyForTrue` | src/opengoo/src/main.cpp:197-204 | after a `fullscreen` param, full screen is on iff its `value` attribute exists and is exactly `true` |
| `Config.ApplyParamsAppend` | src/opengoo/src/main.cpp:177-206 | processing two runs of siblings one after the other equals processing their concatenation |
| `Config.DefaultsWithoutConfigDocument` | src/opengoo/src/main.cpp:153-217 | with no file, an unparseable file or a root other than `config`, the result is 800 by 600, full screen, with the caller's language |
| `Config.DefaultParamsReadBack` | src/opengoo/src/main.cpp:224-244 | reading the three params of the default file sets the width and height to their numbers and full screen to their flag |
| `Config.WriteDefaultConfig` | src/opengoo/src/main.cpp:218-248 | the written document has root `config` and three `param` children; reading it back from any configuration sets 800, 600 and the current full-screen flag, and nothing else |
| `Config.ReadConfig` | src/opengoo/src/main.cpp:151-250 | the result is the interpretation of the file over the defaults; a file is written exactly when none was found, and reading that file back gives the same configuration |

## Left out

- Logging, crash handlers, `qInstallMessageHandler`, `gooMessageHandler` and `qsrand` seeding (src/opengoo/src/main.cpp:56-77, 132-149): these are I/O and process control.
- The log messages in the loop and after it, such as "DEBUG MODE ON" and "STD MODE": output only. The condition behind "STD MODE" is covered by `LaunchFlags.StandardModeIffNoOption`.
- Game-directory creation, `QApplication`, `MainWidget`, `show`/`exec` and the full-screen window state (src/opengoo/src/main.cpp:104-129): file-system and UI glue.
- Opening, reading, writing and closing `config.xml`, QDom parsing and the `QXmlStreamWriter` output format. The file is an already-parsed `ConfigFile`, and the written file is a `Document`, not bytes. A failure to open the file for writing is not modelled.
- Elements nested below the root's children: `ReadConfig` never looks at them.
- The width of `flag` and the values of its bits: `flags.h` is not part of this model.
- `LaunchFlags.Spells`: Qt's case-insensitive comparison folds all of Unicode; the model folds only ASCII letters. For example, Qt may treat `ſ` (long s) in `-fpſ` as `s`; the model does not.
- `QtText.ToInt`: only Latin-1 white space is trimmed, and only ASCII digits and the ASCII signs `-` and `+` are accepted. Qt's conversion may accept more, for example U+2212 MINUS SIGN as a minus sign (so `toInt("−5")` could give -5 in Qt, where the model gives 0) and white space outside Latin-1. Values written by `QString::number` stay within what the model accepts.
- mainwidget.cpp (screen swapping through signals and slots), circle.h (floating-point scaling) and object.h (a Box2D body holder): these are UI and foreign-library code outside this core.
