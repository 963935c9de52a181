# Pixie colour identity and validation layer, in Dafny

This project models the deterministic core of the Pixie colour-picker
browser extension: how a picked colour is given its canonical text form,
how a `#rrggbb` string is parsed and judged light or dark, how a history
entry is built from a picked colour and the chosen output format, how the
legacy key-value accessors apply their defaults, how runtime messages are
recognised, and how the popup decides whether the current tab can be
picked from.

Modules, one per source file plus three helpers:

- `Wrappers` (Option), `Json` (the `unknown` values messages and storage
  hand over: null, boolean, number, string, array, object),
  `Ascii` (`trim` and `toLowerCase` over ASCII).
- `ColorEngine` — `src/shared/color-engine.ts`: the eight format ids and
  their labels, `clamp`, `normalizeHue` (with ECMAScript's truncating `%`
  written out), `normalizeHex`, the channel arithmetic of the RGB and HSL
  renderings over `real`, and `getHexFormats` over a renderer supplied by
  the caller.
- `Color` — `src/shared/color.ts`: `hexToRgb` and `isLightColor`.
- `ColorSchemes` — `src/shared/color-schemes.ts`: `HistoryEntry`,
  `normalizeSourceHex`, `createHistoryEntry`, `isColorFormatId`.
- `Storage` — `src/shared/storage.ts`: the `color_hex_code` and
  `isExpanded` accessors, as a class `LegacyStore` whose one field is the
  store's map; pure functions state what each getter returns and what
  each setter leaves behind.
- `Messages` — `src/shared/messages.ts`: the three message guards.
- `Popup` — `src/popup/index.ts`: `isRestrictedTabUrl` and the if/else
  chain that chooses the picker button.

Parameters standing for the environment: the colour library's
`formatHexAsType` is the `Renderer` argument of `GetHexFormats` and
`CreateHistoryEntry`; the random id and the ISO timestamp of a new entry
are the `id` and `createdAt` arguments of `CreateHistoryEntry`.

Facts of the code the model follows: `hexToRgb` accepts only six digits
(no three-digit shorthand); `normalizeHex` trims white space as well as
lower-casing; `hexToRgb` is case-insensitive but rejects surrounding white
space; `src/shared/storage.ts` holds only the legacy `color_hex_code` and
`isExpanded` accessors modelled here, not a versioned history store. `isLightColor` divides by 1000 in floating point;
for integer channels `x / 1000 > 128` holds exactly when `x > 128000`,
which `Color.IsLightColor` states.

## Model

| member | source | states |
|---|---|---|
| `Ascii.Trim` | src/shared/color-engine.ts:27 | `trim()`: the result neither starts nor ends with white space, and the input is leading white space, the result, then trailing white space |
| `Ascii.ToLower` | src/shared/color-engine.ts:27 | `toLowerCase()`: same length, each character lowered, no upper-case letter left |
| `ColorEngine.FormatCatalogue` | src/shared/color-engine.ts:3-16 | the id list has eight distinct entries, contains every member of the union, distinct ids have distinct strings, every id has a non-empty label |
| `ColorEngine.FormatIdOf` | src/shared/color-engine.ts:3-5 | a string is mapped to the id whose literal it is, and to nothing exactly when no id has that literal |
| `ColorEngine.Clamp` | src/shared/color-engine.ts:18-20 | the result never exceeds `max`; with `min <= max` it lies in `[min, max]`, equals the value when it is inside, `min` below and `max` above |
| `ColorEngine.JsRem360` | src/shared/color-engine.ts:23 | ECMAScript `a % 360`: in `[0, 360)` for a non-negative dividend and in `(-360, 0]` for a negative one |
| `ColorEngine.NormalizeHue` | src/shared/color-engine.ts:22-24 | the result lies in `[0, 360)` and equals the floored remainder of the input by 360 for every sign |
| `ColorEngine.HueModAgrees` | src/shared/color-engine.ts:23 | the double truncating remainder `((v % 360) + 360) % 360` equals the floored remainder |
| `ColorEngine.NormalizeHueOfInt` | src/shared/color-engine.ts:22-24 | on an integer input the result is the Euclidean `v % 360` |
| `ColorEngine.NormalizeHueIdempotent` | src/shared/color-engine.ts:22-24 | normalising twice equals normalising once |
| `ColorEngine.NormalizeHuePeriodic` | src/shared/color-engine.ts:22-24 | adding any whole number of turns leaves the result unchanged |
| `ColorEngine.NormalizeHueExamples` | src/shared/color-engine.ts:22-24 | -30 gives 330, 720 gives 0, 0 gives 0, 360 gives 0 |
| `ColorEngine.NormalizeHex` | src/shared/color-engine.ts:26-29 | the result starts with `#`, has no leading or trailing white space and no upper-case letter, and is the trimmed lower-cased input, with `#` added exactly when that text does not already start with one |
| `ColorEngine.NormalizeHexOfNormalized` | src/shared/color-engine.ts:26-29 | a string already trimmed, lower-case and `#`-prefixed is returned unchanged |
| `ColorEngine.NormalizeHexIdempotent` | src/shared/color-engine.ts:26-29 | normalising twice equals normalising once |
| `ColorEngine.NormalizeHexExamples` | src/shared/color-engine.ts:26-29 | no digit validation: `"ABC"` gives `"#abc"` and the empty string gives `"#"` |
| `ColorEngine.NormalizeHexTrims` | src/shared/color-engine.ts:27-28 | surrounding white space is dropped and letters lowered: `" #FA\n"` gives `"#fa"` |
| `ColorEngine.Round` | src/shared/color-engine.ts:33-35 | `Math.round` gives the integer within one half of its argument, halves going up |
| `ColorEngine.RgbChannel` | src/shared/color-engine.ts:33-35 | a channel is an integer in 0..255, 0 for a missing coordinate or one at or below 0, 255 at or above 1, and within one half of `255 c` in between |
| `ColorEngine.RgbChannelOfByte` | src/shared/color-engine.ts:33-35 | a coordinate `n / 255` for a byte `n` renders as `n` |
| `ColorEngine.RgbChannelsOf` | src/shared/color-engine.ts:31-35 | each rendered channel is `RgbChannel` of its own coordinate, so all three lie in 0..255 |
| `ColorEngine.HslPercent` | src/shared/color-engine.ts:43-44 | saturation and lightness lie in `[0, 100]`, are 0 when missing or at or below 0, `100 c` for `c` in `[0, 1]` and 100 above |
| `ColorEngine.HslComponentsOf` | src/shared/color-engine.ts:40-44 | the hue is the floored remainder by 360 of the coordinate (0 when missing), in `[0, 360)`; saturation and lightness are `HslPercent` of their coordinates, in `[0, 100]` |
| `ColorEngine.GetHexFormats` | src/shared/color-engine.ts:74-85 | the snapshot's entry for every format id is that format's rendering of the given colour |
| `ColorEngine.SnapshotExtensionality` | src/shared/color-schemes.ts:8 | two snapshots agreeing on all eight catalogued ids are equal: the record has no other entries |
| `Color.MatchesHexPattern` | src/shared/color.ts:8 | an accepted string ends in six hex digits and is seven characters long exactly when it starts with `#` |
| `Color.PairValue` | src/shared/color.ts:16-18 | `Number.parseInt(pair, 16)`: a value in 0..255 whose high and low hex digits are the pair's two digits |
| `Color.HexToRgb` | src/shared/color.ts:7-20 | succeeds exactly on an optional `#` followed by six hex digits of either case; each channel is the value of its digit pair, in 0..255 |
| `Color.HexToRgbRejects` | src/shared/color.ts:8-12 | three digits, five digits, seven digits, and leading or trailing white space all give `null` |
| `Color.HexToRgbNoSpace` | src/shared/color.ts:8 | an accepted string contains no white space anywhere |
| `Color.HexToRgbHashOptional` | src/shared/color.ts:8 | the same result with or without the leading `#` |
| `Color.HexToRgbCaseInsensitive` | src/shared/color.ts:8 | the same result for the input and its lower-cased form |
| `Color.HexRoundTrip` | src/shared/color.ts:7-20 | six hex digits rendered from byte channels, with or without `#`, parse back to the same channels |
| `Color.HexToRgbCanonical` | src/shared/color.ts:7-20 | re-rendering a parsed colour gives exactly what `normalizeHex` makes of the input |
| `Color.PairToHex` | src/shared/color.ts:16-18 | a parsed digit pair renders back as the same two digits in lower case |
| `Color.IsLightColor` | src/shared/color.ts:22-31 | false when parsing fails; otherwise true exactly when `299 r + 587 g + 114 b > 128000` |
| `Color.IsLightColorMonotone` | src/shared/color.ts:29-30 | raising any channels never turns a light colour into a non-light one |
| `Color.IsLightColorExamples` | src/shared/color.ts:22-31 | `#ffffff` and `#818181` are light; `#000000`, the threshold grey `#808080` and `white` are not |
| `ColorSchemes.NormalizeSourceHex` | src/shared/color-schemes.ts:29-35 | the source colour is normalised by `normalizeHex`; the result is in normal form |
| `ColorSchemes.DefaultSourceHexNormalized` | src/shared/color-schemes.ts:19 | the `#000000` fallback is itself in normal form |
| `ColorSchemes.CreateHistoryEntry` | src/shared/color-schemes.ts:37-49 | id and timestamp as given, `sourceHex` is the normalised input and starts with `#`, `formatAtPick` as passed, every snapshot entry is the rendering of `sourceHex`, and `valueAtPick == values[formatAtPick]` |
| `ColorSchemes.CreateHistoryEntryDeterministic` | src/shared/color-schemes.ts:37-49 | two entries from the same colour and format agree on every field except id and timestamp |
| `ColorSchemes.CreateHistoryEntryNormalizes` | src/shared/color-schemes.ts:38-44 | two spellings with the same normal form give the same entry |
| `ColorSchemes.IsColorFormatId` | src/shared/color-schemes.ts:51-53 | true exactly when the value is a string equal to one of the eight ids |
| `ColorSchemes.IsColorFormatIdExamples` | src/shared/color-schemes.ts:51-53 | `"hex"` and `"p3"` pass; `"HEX"`, `""`, null, a number and an array do not |
| `ColorSchemes.IsColorFormatIdOfId` | src/shared/color-schemes.ts:51-53 | every id's own literal passes |
| `Storage.ReadColors` | src/shared/storage.ts:26-29 | the stored array under `color_hex_code` when there is one, and the empty list when the key is absent or holds a non-array |
| `Storage.WriteColors` | src/shared/storage.ts:31-33 | `color_hex_code` holds the given strings as an array and every other key keeps its value |
| `Storage.RemoveColors` | src/shared/storage.ts:35-37 | `color_hex_code` is gone and every other key keeps its value |
| `Storage.ReadExpanded` | src/shared/storage.ts:39-42 | `false` when `isExpanded` is absent or null, the stored value otherwise, never null |
| `Storage.WriteExpanded` | src/shared/storage.ts:44-46 | `isExpanded` holds the given flag and every other key keeps its value |
| `Storage.ReadColorsAfterWrite` | src/shared/storage.ts:26-33 | after writing a colour list, reading returns that list |
| `Storage.ReadColorsAfterRemove` | src/shared/storage.ts:26-37 | after removal, reading returns the empty list |
| `Storage.ReadExpandedAfterWrite` | src/shared/storage.ts:39-46 | after writing the flag, reading returns it |
| `Storage.KeysIndependent` | src/shared/storage.ts:31-46 | writing or removing the colours leaves the flag's reading unchanged, and writing the flag leaves the colours' reading unchanged |
| `Storage.RemoveColorsIdempotent` | src/shared/storage.ts:35-37 | removing twice is the same as removing once |
| `Storage.ReadColorsIgnoresNonArrays` | src/shared/storage.ts:28 | any non-array value under `color_hex_code` reads as the empty list |
| `Storage.LegacyStore.constructor` | src/shared/storage.ts:1-4 | the store starts with the given map |
| `Storage.LegacyStore.GetStoredColors` | src/shared/storage.ts:26-29 | returns `ReadColors` of the current map |
| `Storage.LegacyStore.SetStoredColors` | src/shared/storage.ts:31-33 | the new map is `WriteColors` of the old one |
| `Storage.LegacyStore.RemoveStoredColors` | src/shared/storage.ts:35-37 | the new map is `RemoveColors` of the old one |
| `Storage.LegacyStore.GetExpandedState` | src/shared/storage.ts:39-42 | returns `ReadExpanded` of the current map |
| `Storage.LegacyStore.SetExpandedState` | src/shared/storage.ts:44-46 | the new map is `WriteExpanded` of the old one |
| `Json.IsObject` | src/shared/messages.ts:17 | `typeof v === "object" && v !== null`: false exactly for null, booleans, numbers and strings |
| `Json.Property` | src/shared/messages.ts:22 | the property read `candidate[key]` yields a value exactly for an object having that key, and that key's value |
| `Messages.IsPopupToContentMessage` | src/shared/messages.ts:16-23 | true exactly for an object whose `from` is `"popup"` and whose `query` is `"eye_dropper_clicked"` |
| `Messages.IsClearBadgeMessage` | src/shared/messages.ts:25-32 | true exactly for an object whose `query` is `"clear_badge"` |
| `Messages.IsBadgeColorMessage` | src/shared/messages.ts:34-41 | true exactly for an object whose `color` is a string, with no check of its form |
| `Messages.NonObjectsRejected` | src/shared/messages.ts:16-19 | null, scalars and arrays pass none of the three guards |
| `Messages.PopupAndClearBadgeDisjoint` | src/shared/messages.ts:22-31 | no value passes both the popup guard and the clear-badge guard |
| `Messages.BadgeColorAndClearBadgeOverlap` | src/shared/messages.ts:31-40 | an object with a string `color` and `query: "clear_badge"` passes both the badge-colour and the clear-badge guard |
| `Messages.ExtraPropertiesIgnored` | src/shared/messages.ts:21-40 | adding or changing a property other than `from`, `query` and `color` leaves every guard's verdict unchanged |
| `Messages.BadgeColorExamples` | src/shared/messages.ts:40 | an empty or arbitrary string colour passes; a numeric colour or a missing one does not |
| `Popup.StartsWith` | src/popup/index.ts:63-71 | `startsWith`: the prefix is no longer than the string and equals its first characters |
| `Popup.IsRestrictedTabUrl` | src/popup/index.ts:61-73 | true exactly when the URL starts with one of the nine listed prefixes |
| `Popup.RestrictedClosedUnderExtension` | src/popup/index.ts:61-73 | a restricted URL stays restricted whatever is appended to it |
| `Popup.IsRestrictedTabUrlExamples` | src/popup/index.ts:66-70 | a web-store detail page and `about:blank` are restricted |
| `Popup.UnrestrictedExamples` | src/popup/index.ts:70-71 | `https://chrome.google.com/` and `https://example.com` are not restricted |
| `Popup.OnlyHttpsPrefixesLeft` | src/popup/index.ts:61-73 | a URL starting with `h` is restricted exactly when it starts with one of the two store prefixes |
| `Popup.TabUrl` | src/popup/index.ts:218 | the tab's URL is usable exactly when there is a tab and its `url` is a string, and it is then that string |
| `Popup.PickerButtonFor` | src/popup/index.ts:218-227 | no usable URL gives the generic message; a `chrome` prefix the Chrome message; otherwise a `file` prefix the local-pages message; otherwise a restricted URL the generic message; and the pick button exactly when none of these apply |
| `Popup.ChromeAndFileTakePrecedence` | src/popup/index.ts:220-223 | `chrome://`, `chrome-extension://` pages get the Chrome message and `file://` pages the local one, not the generic message |
| `Popup.NoUsableUrl` | src/popup/index.ts:218-219 | a missing tab, a missing URL or a non-string URL gives the generic message |
| `Popup.GenericMessagePrefixes` | src/popup/index.ts:220-225 | a string URL given the generic message starts with one of the restricted prefixes other than `chrome://`, `chrome-extension://` and `file://` |
| `Popup.PickerButtonExamples` | src/popup/index.ts:224-227 | `https://example.com` gets the pick button; a `chromewebstore.google.com` page gets the generic message |

## Left out

- The colour-space conversions of `formatHexAsType` (src/shared/color-engine.ts:49-72) go through the `colorjs.io` library and floating point; they are the `Renderer` parameter, so nothing is stated about the rendered strings themselves.
- `ColorSchemes.CreateHistoryEntry` / `ColorEngine.GetHexFormats`: the renderer is modelled as total. In the source, `formatHexAsType` begins with `new Color(hex)` (src/shared/color-engine.ts:50), which throws on text the colour library cannot parse; `normalizeHex` validates nothing, and the `getHexFormats` call (src/shared/color-schemes.ts:39) is outside the `try` of `normalizeSourceHex`, so `createHistoryEntry` throws on such input (e.g. `"zz"`), whereas the model returns a well-formed entry for every string. The one caller shown (src/content/index.ts:8,39-40) passes the EyeDropper's `sRGBHex`.
- The number-to-text rendering (`toFixed(1)`, `toString({ precision })`, template strings) of `formatAsRgbString` and `formatAsHslString`: the model stops at the numbers that are rendered.
- `ColorEngine.RgbChannel`, `ColorEngine.HslPercent`, `ColorEngine.NormalizeHue`: computed over exact `real` arithmetic, not IEEE doubles; a `NaN` coordinate (which passes the source's `typeof === "number"` test) cannot be expressed and is not modelled, only a missing coordinate (`None`).
- `Ascii.Trim` and `Ascii.ToLower`: ASCII white space and letters only; the full Unicode behaviour of `trim` and `toLowerCase` is not modelled.
- `ColorSchemes.NormalizeSourceHex`: the `catch` branch that falls back to `#000000` is not reachable for a string argument, so the model has no path to it; only the constant's normal form is proved.
- `getRandomId` and `new Date().toISOString()` (src/shared/color-schemes.ts:21-27,43) are random and clock-dependent; their results are parameters.
- The Promise and callback wrappers around `chrome.storage.local` (src/shared/storage.ts:6-24) are asynchronous I/O; each accessor is one synchronous read or write of an in-memory map.
- The versioned colour history store (`getColorHistory`, `addHistoryEntry`, `removeHistoryEntryById`, `clearColorHistory`, `getActiveOutputFormat`, `setActiveOutputFormat`) is imported by the popup and content script but is not part of `src/shared/storage.ts`; it is not part of this model.
- Everything else in `src/popup/index.ts` (DOM set-up, the dialog, event handlers, the pick-action lock, script injection) and the UI files `src/popup/dom.ts` and `src/popup/menu.ts` are user-interface code.
- `src/content/index.ts` and `src/background/index.ts` (the EyeDropper, clipboard, message sending, badge API) are browser plumbing.
- `scripts/build.mjs`, `scripts/copy-static.mjs` and `src/types/chrome.d.ts` are build tooling and declarations.
