# MMRL WX decision logic in Dafny

This project models the decision logic of MMRL WX, an Android app that hosts
the WebUIs of root-management modules (Magisk, KernelSU, KernelSU Next,
APatch, or no root at all). Most of the app is Compose UI. The pure decisions
beneath that UI are modelled as functions over small immutable datatypes:

- **Extensions** (`extensions.dfy`, from `Extensions.kt`). This covers how a
  module version is displayed, which working mode a platform maps to, and
  which base directory a WebUI gets. It also covers the WebUI dispatcher
  `launchWebUI`: from the global engine preference and the module's own engine
  setting, it picks the internal host (WX), the KernelSU host, or the
  "Unknown WebUI engine" notice. Finally it holds the typed map lookups
  `getBoolProp`, `getProp` and `getPropOrNull`. Launches, notices and the
  `BrickException` are returned values: `Result<Effect, Brick>`. The result
  type holds at most one `Effect`, so every path does at most one launch or
  notice, and a failed base directory produces none.
- **ModuleItem** (`module_item.dfy`, from `ModuleItem.kt`). This covers the
  module card: the click guard, the click precedence of the config screen over
  the WebUI, and the text fallbacks the card shows.
- **ConfigEditor** (`config_editor.dfy`, from `ConfigEditorScreen.kt`). This
  covers the WebUI configuration editor. It models which controls are enabled
  or checked for a given `WebUIConfig`, and the single-key edit each control
  issues (`slave { "key" change value }`). The edit is applied to a key/value
  store, and it is also applied to the configuration record. Both interceptor
  selectors offer the constant `InterceptorOptions`, `["native", "javascript"]`,
  in that order (lines 54-64).
- **Numerals** (`numerals.dfy`) holds the Kotlin integer text conversions the
  above rely on: `Int.toString()` and `String.toInt()` with its 32-bit range.
- **Types** (`types.dfy`) and **Wrappers** (`wrappers.dfy`) hold the records
  consumed from the platform and datastore libraries, plus `Option` and `Result`.

External inputs are parameters: whether the platform is alive, the current
platform, `getExternalFilesDir(null)`, the module's engine setting
(`config.getWebuiEngine`), and the user's preferences.

The version rule follows the regex `\(.*?CODE.*?\)` of `versionDisplay`.
The predicate `HasCodeGroup` states it declaratively: a `(`, later the code's
digits, later a `)`, with no line terminator in between (the JVM's `.` rejects
`\n`, `\r`, U+0085, U+2028 and U+2029). An executable one-pass scan is proved
equal to it. The regex only asks for the code's digits *somewhere* inside
the group, so code 2 counts as present in "(12)"
(`VersionDisplayMatchesInsideLargerNumber`).

The max-age field's `onValid` predicate is `!Regex("^[0-9]+$").matches(it)`.
It is true for texts that are *not* digit runs. The model states the
predicate and what `toInt()` then does with a text. An all-digit text above
`Int.MAX_VALUE` passes the predicate's test but throws on save
(`MaxAgeOverflowThrows`).

## Model

| member | source | states |
|---|---|---|
| Extensions.VersionDisplay | app/src/main/java/com/dergoogler/mmrl/wx/util/Extensions.kt:71-81 | The version is shown unchanged when it already holds a parenthesised group, on one line, containing the decimal version code; otherwise " (code)" is appended. |
| Extensions.ContainsCodeGroup | app/src/main/java/com/dergoogler/mmrl/wx/util/Extensions.kt:73-74 | The one-pass scan answers true exactly when the version contains a match of `\(.*?code.*?\)`, where `.` matches any character except a line terminator. |
| Extensions.Scan | app/src/main/java/com/dergoogler/mmrl/wx/util/Extensions.kt:73-74 | Given the scan state of a prefix (a `(` still open on the current line, a complete code inside it, a group already closed), the scan of the rest answers whether the whole string contains a group. |
| Extensions.SuffixedHasCodeGroup | app/src/main/java/com/dergoogler/mmrl/wx/util/Extensions.kt:79 | Appending " (" + code + ")" always produces a group holding the code. |
| Extensions.VersionDisplayShowsCode | app/src/main/java/com/dergoogler/mmrl/wx/util/Extensions.kt:71-81 | Whatever the version string, the displayed version contains the code inside a parenthesised group. |
| Extensions.VersionDisplayIdempotent | app/src/main/java/com/dergoogler/mmrl/wx/util/Extensions.kt:71-81 | Applying the display rule to its own output changes nothing. |
| Extensions.VersionDisplayMatchesInsideLargerNumber | app/src/main/java/com/dergoogler/mmrl/wx/util/Extensions.kt:73-74 | The group only has to contain the code digits somewhere: version "1.0 (12)" with code 2 is shown as is. |
| Extensions.ToWorkingMode | app/src/main/java/com/dergoogler/mmrl/wx/util/Extensions.kt:97-104 | Defined exactly on Magisk, KernelSU, KsuNext, APatch and NonRoot, where `PlatformOf` undoes it; every other platform fails with "Unsupported Platform". |
| Extensions.ToWorkingModeOfPlatformOf | app/src/main/java/com/dergoogler/mmrl/wx/util/Extensions.kt:97-102 | Every working mode is the image of its platform, so the mapping is onto the five modes. |
| Extensions.ToWorkingModeInjective | app/src/main/java/com/dergoogler/mmrl/wx/util/Extensions.kt:97-102 | Two platforms that map to the same working mode are the same platform. |
| Extensions.GetBaseDir | app/src/main/java/com/dergoogler/mmrl/wx/util/Extensions.kt:206-220 | Any root platform gets the fixed ADB directory whatever the files dir is; the non-root platform gets its external files dir and fails with "Failed to get filesDir" exactly when that dir is null. |
| Extensions.LaunchWebUI | app/src/main/java/com/dergoogler/mmrl/wx/util/Extensions.kt:143-182 | Fails exactly when the base directory fails, with no launch or notice. Otherwise: WX without a base dir iff the module is preferred and sets no engine; WX with the base dir iff WX is forced or the module says "wx"; KSU with the base dir iff KSU is forced or the module says "ksu"; the "Unknown WebUI engine" notice iff the preference is another value or the module names any other engine. |
| Extensions.ForcedEngineIgnoresModule | app/src/main/java/com/dergoogler/mmrl/wx/util/Extensions.kt:170-181 | With a forced preference the module engine setting never changes the outcome. |
| Extensions.BaseDirFailsWhereUnused | app/src/main/java/com/dergoogler/mmrl/wx/util/Extensions.kt:146-158 | The base directory is resolved before the branch, so a non-root platform with no files dir fails even on the path that launches WX without a base dir. |
| Extensions.GetProp | app/src/main/java/com/dergoogler/mmrl/wx/util/Extensions.kt:195-202 | The stored value when the key is present and the value has the requested type; the default for a value of another type; for a null map or missing key, null when null is of the requested type and the default otherwise. |
| Extensions.GetBoolProp | app/src/main/java/com/dergoogler/mmrl/wx/util/Extensions.kt:184-192 | The stored Boolean when the key holds one; the default (Kotlin's default argument is `false`) for a null map, a missing key or a non-Boolean value. |
| Extensions.GetPropOrNull | app/src/main/java/com/dergoogler/mmrl/wx/util/Extensions.kt:204 | Some value exactly when the map is non-null, the key is present and its value has the requested type; null in every other case. |
| Extensions.GetPropIsGetPropOrNullOrDefault | app/src/main/java/com/dergoogler/mmrl/wx/util/Extensions.kt:195-204 | `getProp` with a default equals `getPropOrNull` with that default filled in. |
| Extensions.GetNullableStringPropOfMissingKey | app/src/main/java/com/dergoogler/mmrl/wx/util/Extensions.kt:195-197 | Asking for a nullable string from a null map or under a missing key gives null, whatever the default. |
| Extensions.GetPropAfterStore | app/src/main/java/com/dergoogler/mmrl/wx/util/Extensions.kt:195-202 | After storing a value under a key, reading that key gives the value when it has the requested type, else the default; other keys read as before. |
| Numerals.Digits | app/src/main/java/com/dergoogler/mmrl/wx/util/Extensions.kt:73 | The decimal digits of a natural number are a non-empty run of ASCII digits with no leading zero unless the number is zero. |
| Numerals.DecimalText | app/src/main/java/com/dergoogler/mmrl/wx/ui/screens/modules/screens/ConfigEditorScreen.kt:363 | The text of an `Int` starts with a minus sign exactly for negative numbers and is otherwise ASCII digits. |
| Numerals.ParseInt | app/src/main/java/com/dergoogler/mmrl/wx/ui/screens/modules/screens/ConfigEditorScreen.kt:369 | `toInt()` succeeds only on a text that is a non-empty ASCII digit run after at most one leading `+` or `-`, only with a value within the 32-bit `Int` range, and gives a negative value only after a `-`. |
| Numerals.ParseIntOfDecimalText | app/src/main/java/com/dergoogler/mmrl/wx/ui/screens/modules/screens/ConfigEditorScreen.kt:363-369 | Parsing the text of any `Int` gives that `Int` back. |
| Numerals.ParseIntOfSignedRun | app/src/main/java/com/dergoogler/mmrl/wx/ui/screens/modules/screens/ConfigEditorScreen.kt:367-369 | A `-` or `+` followed by a digit run, leading zeros included, parses to the signed value exactly when it fits an `Int`, and throws otherwise. |
| Numerals.ParseIntRejectsNonDigits | app/src/main/java/com/dergoogler/mmrl/wx/ui/screens/modules/screens/ConfigEditorScreen.kt:367-369 | A text with a non-digit anywhere after its first character throws, and so does a lone sign. |
| Numerals.ParseIntOfDigitRun | app/src/main/java/com/dergoogler/mmrl/wx/ui/screens/modules/screens/ConfigEditorScreen.kt:365-369 | A non-empty run of ASCII digits parses to its value when that value is at most `Int.MAX_VALUE`, and throws when it is larger. |
| Numerals.DigitsValueLowerBound | app/src/main/java/com/dergoogler/mmrl/wx/ui/screens/modules/screens/ConfigEditorScreen.kt:365-369 | A digit run without a leading zero is worth at least ten to the power of its length minus one. |
| ModuleItem.ClickBody | app/src/main/java/com/dergoogler/mmrl/wx/ui/screens/modules/ModuleItem.kt:74-86 | A module with a config screen opens it; otherwise one with a WebUI opens the WebUI; a module with neither gets the "Unsupported module" notice. |
| ModuleItem.Clicker | app/src/main/java/com/dergoogler/mmrl/wx/ui/screens/modules/ModuleItem.kt:71-86 | The card has a click handler iff the platform is alive, the module has a WebUI or a config screen, and it is not being removed; a handler that exists never reaches the "Unsupported module" notice. |
| ModuleItem.ModConfTakesPrecedence | app/src/main/java/com/dergoogler/mmrl/wx/ui/screens/modules/ModuleItem.kt:75-78 | With both capabilities, a click always opens the config screen and never the WebUI. |
| ModuleItem.OpensWebUIExactly | app/src/main/java/com/dergoogler/mmrl/wx/ui/screens/modules/ModuleItem.kt:71-83 | A click opens the WebUI iff the card is clickable, the module has a WebUI and it has no config screen. |
| ModuleItem.Tap | app/src/main/java/com/dergoogler/mmrl/wx/ui/screens/modules/ModuleItem.kt:74-86 | A tap does nothing unless the guard holds and never shows the unsupported notice; a clickable module with a config screen launches it, and one without a config screen dispatches exactly `launchWebUI` for its id and engine. |
| ModuleItem.WebUIOnlyModuleOnRootLaunchesWX | app/src/main/java/com/dergoogler/mmrl/wx/ui/screens/modules/ModuleItem.kt:80-83 | A WebUI-only module with WX forced on a root platform launches the internal host in the ADB directory. |
| ModuleItem.Card | app/src/main/java/com/dergoogler/mmrl/wx/ui/screens/modules/ModuleItem.kt:92-203 | The title is the config name when present, else the module name, and the description likewise; the version line is the module's version display and so always shows the code in a group; the updated-on line appears iff the timestamp is non-zero and the menu shows update times; the id label appears iff developer mode is on; the cover iff the menu shows covers and the config names one. |
| ConfigEditor.KeyNamedName | app/src/main/java/com/dergoogler/mmrl/wx/ui/screens/modules/screens/ConfigEditorScreen.kt:174-369 | Each field key string leads back to its field, so the fifteen controls write fifteen distinct keys. |
| ConfigEditor.NameInjective | app/src/main/java/com/dergoogler/mmrl/wx/ui/screens/modules/screens/ConfigEditorScreen.kt:174-369 | Distinct fields are stored under distinct key strings. |
| ConfigEditor.FieldsDetermineConfig | app/src/main/java/com/dergoogler/mmrl/wx/ui/screens/modules/screens/ConfigEditorScreen.kt:161-372 | Two configurations whose fifteen fields agree are equal. |
| ConfigEditor.Store | app/src/main/java/com/dergoogler/mmrl/wx/ui/screens/modules/screens/ConfigEditorScreen.kt:111-115 | A save sets the named key to the value and leaves every other key, present or absent, as it was. |
| ConfigEditor.Apply | app/src/main/java/com/dergoogler/mmrl/wx/ui/screens/modules/screens/ConfigEditorScreen.kt:111-115 | After a well-typed edit is saved, the edited field holds the new value. |
| ConfigEditor.ApplyKeepsOtherFields | app/src/main/java/com/dergoogler/mmrl/wx/ui/screens/modules/screens/ConfigEditorScreen.kt:111-115 | After an edit is saved, every field other than the edited one is unchanged. |
| ConfigEditor.StoreRefinesApply | app/src/main/java/com/dergoogler/mmrl/wx/ui/screens/modules/screens/ConfigEditorScreen.kt:111-115 | Saving an edit into a store that holds a configuration gives a store that holds the edited configuration. |
| ConfigEditor.ItemStyleAsWritten | app/src/main/java/com/dergoogler/mmrl/wx/ui/screens/modules/screens/ConfigEditorScreen.kt:164-172 | As written, the title and icon description style is the default style even when the field is unset. |
| ConfigEditor.ItemStyle | app/src/main/java/com/dergoogler/mmrl/wx/ui/screens/modules/screens/ConfigEditorScreen.kt:164-172 | Corrected: the description is italic exactly when the field is unset and the placeholder is shown. |
| ConfigEditor.ItemStyleDropsItalic | app/src/main/java/com/dergoogler/mmrl/wx/ui/screens/modules/screens/ConfigEditorScreen.kt:164-172 | For an unset title the written code keeps the regular style, where the corrected style is italic. |
| ConfigEditor.View | app/src/main/java/com/dergoogler/mmrl/wx/ui/screens/modules/screens/ConfigEditorScreen.kt:161-372 | With the title and icon styles as written, a checked exit-confirm switch is also enabled; the back-interceptor selector is enabled iff the effective back handler is on; the refresh-interceptor selector iff pull-to-refresh is on; the max-age field iff caching is on. |
| ConfigEditor.PlaceholderKeepsDefaultStyle | app/src/main/java/com/dergoogler/mmrl/wx/ui/screens/modules/screens/ConfigEditorScreen.kt:164-172 | The title and icon descriptions always have the default style, so an unset field's placeholder differs from the intended italic style. |
| ConfigEditor.ExitConfirmControl | app/src/main/java/com/dergoogler/mmrl/wx/ui/screens/modules/screens/ConfigEditorScreen.kt:209-215 | The exit-confirm switch is enabled iff the back interceptor is not "javascript", and checked iff that holds and exitConfirm is set. |
| ConfigEditor.BackHandlerDefaultsToOn | app/src/main/java/com/dergoogler/mmrl/wx/ui/screens/modules/screens/ConfigEditorScreen.kt:223-237 | An absent back handler counts as on; the back-interceptor selector is enabled iff the back handler is not explicitly off. |
| ConfigEditor.RefreshInterceptorFollowsPullToRefresh | app/src/main/java/com/dergoogler/mmrl/wx/ui/screens/modules/screens/ConfigEditorScreen.kt:255-272 | The refresh-interceptor selector is enabled iff pull-to-refresh is on, and shows the stored interceptor. |
| ConfigEditor.MaxAgeFollowsCaching | app/src/main/java/com/dergoogler/mmrl/wx/ui/screens/modules/screens/ConfigEditorScreen.kt:348-360 | The max-age field is enabled iff caching is on. |
| ConfigEditor.TitleAndIconFallBackToEmpty | app/src/main/java/com/dergoogler/mmrl/wx/ui/screens/modules/screens/ConfigEditorScreen.kt:161-198 | The title and icon fields start from the stored text, or from "" when unset; the description is the placeholder exactly when unset. |
| ConfigEditor.IsDigitRun | app/src/main/java/com/dergoogler/mmrl/wx/ui/screens/modules/screens/ConfigEditorScreen.kt:365 | `^[0-9]+$` matches exactly the non-empty strings of ASCII digits. |
| ConfigEditor.MaxAgeOnValid | app/src/main/java/com/dergoogler/mmrl/wx/ui/screens/modules/screens/ConfigEditorScreen.kt:364-366 | `onValid` is true exactly for the empty text and for texts holding some character that is not an ASCII digit. |
| ConfigEditor.Handle | app/src/main/java/com/dergoogler/mmrl/wx/ui/screens/modules/screens/ConfigEditorScreen.kt:174-371 | Every handler either saves one well-typed edit to its own control key, or shows "Please select an option" exactly for a null radio choice, or throws exactly when the max-age text does not parse. A switch saves its checked state, a text entry its text, an interceptor the chosen string, and the max-age the parsed 32-bit value. |
| ConfigEditor.Commit | app/src/main/java/com/dergoogler/mmrl/wx/ui/screens/modules/screens/ConfigEditorScreen.kt:111-115 | A save sets its key to the saved value; every other key, and for a notice or a throw every key, keeps its presence and value. |
| ConfigEditor.HandlerTouchesOnlyItsKey | app/src/main/java/com/dergoogler/mmrl/wx/ui/screens/modules/screens/ConfigEditorScreen.kt:174-371 | Whatever the control, every key other than that control key keeps its presence and value. |
| ConfigEditor.NullChoiceLeavesStoreUnchanged | app/src/main/java/com/dergoogler/mmrl/wx/ui/screens/modules/screens/ConfigEditorScreen.kt:242-284 | Confirming a null radio choice leaves the store unchanged for both interceptors. |
| ConfigEditor.JsBackInterceptorMasksExitConfirm | app/src/main/java/com/dergoogler/mmrl/wx/ui/screens/modules/screens/ConfigEditorScreen.kt:209-215 | With the "javascript" back interceptor the exit-confirm switch is disabled and unchecked, and the stored exitConfirm value does not change the view. |
| ConfigEditor.ChoosingJsBackInterceptorDisablesExitConfirm | app/src/main/java/com/dergoogler/mmrl/wx/ui/screens/modules/screens/ConfigEditorScreen.kt:236-253 | Choosing the second option, "javascript", for the back interceptor saves it and disables the exit-confirm switch in the next view. |
| ConfigEditor.BackHandlerOffKeepsInterceptor | app/src/main/java/com/dergoogler/mmrl/wx/ui/screens/modules/screens/ConfigEditorScreen.kt:223-240 | Switching the back handler off disables the back-interceptor selector but keeps its selected value. |
| ConfigEditor.MaxAgeFieldRoundTrip | app/src/main/java/com/dergoogler/mmrl/wx/ui/screens/modules/screens/ConfigEditorScreen.kt:359-371 | Confirming the max-age text the field starts from saves the stored value, and the configuration is unchanged. |
| ConfigEditor.UnflaggedMaxAgeSavesIffInRange | app/src/main/java/com/dergoogler/mmrl/wx/ui/screens/modules/screens/ConfigEditorScreen.kt:364-371 | A text that `onValid` does not flag is saved iff its value fits an `Int`, and what it saves is that value, between 0 and `Int.MAX_VALUE`. |
| ConfigEditor.MaxAgeOverflowThrows | app/src/main/java/com/dergoogler/mmrl/wx/ui/screens/modules/screens/ConfigEditorScreen.kt:364-371 | "10000000000" is not flagged by `onValid` but its `toInt()` throws, so it is never saved. |

## Left out

- `extractZipFromAssets`: stream and file I/O over a zip archive, with nothing pure to state.
- `init` / `initPlatform`: suspend functions that bind root or non-root service providers over IPC.
- The `toFormattedDateSafely` getters: date formatting with the user's pattern by an external library. The card carries the raw timestamp instead.
- `navigateSingleTopTo` / `navigatePopUpTo`: thin wrappers over the navigation controller.
- Compose layout, styling, toasts and activity launches as effects. They appear only as returned values (`Effect`, `ClickTarget`, `Reaction`).
- `launchModConf` is not part of this model. A click that opens the config screen is the value `OpenModConf`.
- Persistence behind `config.save`, `asWebUIConfigFlow` and `toJson`. `Store` models the single-key write and `Apply` models the configuration delivered after it. The coroutine launch in `slave` and the ordering of concurrent saves are left out.
- The export sheet (`config.toJson()` shared as text) and the plugins button: they are serialisation and navigation in external code.
- The commented-out `config.module.json` code path: dead code.
- Cover-image loading and file-size formatting: file I/O and an external formatter. The card records only which cover file name would be loaded.
- The ErrorScreen component: layout only.
- Types.Platform: the platform library's enumeration is not shown. Values beyond the five named ones are `Other(name)`, and `isNonRoot` is taken to hold for `NonRoot` only.
- Types.WebUIEngine: the preference enumeration is not shown. `OtherEngine` stands for any value beyond the three the dispatcher names, which is what makes its final notice reachable.
- Types.ModuleState: only `REMOVE` matters to the card. The other values are placeholders for the library's remaining states.
- Types.Value: `Any?` values are limited to null, Boolean, `Int` and `String`. A `getProp` type test is a projection `Value -> Option<T>`.
- ConfigEditor.Handle: the edit-text component's use of `onValid` is not shown, so the model does not promise that a flagged text is refused before the confirm handler runs; a flagged text such as "-5" that `toInt()` accepts is saved.
- ConfigEditor.Commit: `slave` launches `config.save(builder)` in a coroutine and the conversion `toInt()` runs inside that builder after the handler has returned. The model takes the unseen `save` to run the builder before it writes, so a throwing conversion leaves the store unchanged; the uncaught exception in the coroutine is not modelled.
- ModuleItem.Card: the id label is taken to be the bare module id, since `ModId.toString()` is not shown.
- Numerals.ParseInt: `String.toInt()` also accepts non-ASCII Unicode decimal digits. The model accepts only ASCII digits with an optional sign.
- ConfigEditor.WebUIConfig: the field defaults used when a field is absent from storage live in an external package and are not modelled. `backInterceptor` is taken to be a nullable string.
- Extensions.Dir: the value of `ModId.ADB_DIR` is not shown, so the root directory is the constant `AdbDir`.

## Findings

| source | as written | input that shows it | evidently intended | confidence | as-written member | corrected member |
|---|---|---|---|---|---|---|
| app/src/main/java/com/dergoogler/mmrl/wx/ui/screens/modules/screens/ConfigEditorScreen.kt:164-172 (and 184-192) | `ListItemDefaults.itemStyle.apply { if (config.title == null) copy(...) }` makes an italic copy and drops it, because `apply` returns its receiver; the default style is always used | `config.title == null` | the placeholder description is shown in italics when the field is unset | high (not executed) | ConfigEditor.ItemStyleAsWritten | ConfigEditor.ItemStyle |
