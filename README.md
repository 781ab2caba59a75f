# esBranding metadata plugin, modelled in Dafny

`webtrends.esBranding.js` is a plugin for the Webtrends analytics tag. It
runs on SharePoint document-library preview pages (`DispForm.aspx`). What it
does:

- It decides from the configured `dispFormPages` list whether the current
  page is one it should hold the tag on.
- If so, it keeps the tag waiting until `document.readyState` is
  `"complete"`.
- It collects the page's `window.WPQnFormCtx.ListData` fields into an
  internal `metaObject`. Keys are normalised. Person values are resolved to
  a name. Markup is stripped and the values are trimmed.
- It pushes every stored field into the hit as a `WT.shp_doc_<name>`
  parameter. A value longer than `charLimit` is cut to `charLimit`
  characters, cut back to its last space, and followed by `...`; the result
  is therefore up to two characters longer than the limit, or `...` alone.
  With a negative limit even an empty value comes out as `...`.
- Download links get the values. Every other link gets them cleared.

The model has five modules:

- `Wrappers`: `Option`.
- `JsStrings`: the JavaScript string built-ins the plugin uses. These are
  `toLowerCase`, `indexOf`, `lastIndexOf`, `replace` with a string pattern,
  `split(",")` and the `\s` trim.
- `Sanitizer`: the pure steps. These are key normalisation, person/account
  resolution, tag stripping and cleaning, truncation, and the link-click
  policy.
- `MetaData`: `metaObject` as an insertion-ordered dictionary, what one
  `collectData()` does to it, and the name/value list one `pushData()`
  appends.
- `EsBranding`: the plugin itself. `class Plugin` holds the `registered`
  flag, the host call count, the poll, the installed hooks and
  `metaObject`. Its methods are the constructor (the page gate), `Register`,
  `Poll`, `CollectData`, `PushData` and the two transforms. `class Hit` is
  the host's `multiTrackObject`; `PushData` appends to its `argsa` list in
  place.

The page is an input value (`Page`): the id of the placeholder element and
the page globals. The `location.pathname`, the `readyState` of each poll
tick and the clicked element are inputs too. The call to
`tag.registerPluginCallback` is counted in `hostCalls`.

Three behaviours of the code are worth knowing when reading the model:

- Person values. The marker the code looks for, `#i:0#.w|accounts\`,
  starts with `#`. A value holding only `i:0#.w|accounts\` without that `#`
  does not contain it, so it is not resolved to a name: `ResolvedAccount`
  keeps it, and like any other value it is only stripped of markup and
  trimmed before it is stored.
- Download class. The link test compares the whole `className` with
  `"aDownload"`; it does not look for a class token. An element with
  classes `"aDownload big"` is cleared unless its text is the phrase.
- Link text. The link hook reads `el.innerText` before it tests `el`. A
  click with no element, or with an empty or missing `innerText` and no
  `textContent`, throws inside the
  hook's `try`, and nothing is pushed.

## Model

| member | source | states |
|---|---|---|
| JsStrings.Lower | webtrends.esBranding.js:35 | The length is kept, every upper-case ASCII letter becomes its lower-case letter (code plus 32), and every other character is unchanged. |
| JsStrings.LowerIdempotent | webtrends.esBranding.js:42 | Lower-casing an already lower-cased path changes nothing. |
| JsStrings.IndexOf | webtrends.esBranding.js:44 | The result is non-negative exactly when the pattern occurs. It is then the first index at which it occurs. |
| JsStrings.ContainsEmpty | webtrends.esBranding.js:44 | The empty pattern occurs in every string (`indexOf("")` is 0). |
| JsStrings.LastIndexOf | webtrends.esBranding.js:114 | Returns -1 or an index holding the character, and no later index holds it. |
| JsStrings.CharIndex | webtrends.esBranding.js:93 | Returns -1 or an index holding the character, and no earlier index holds it. |
| JsStrings.RemoveFirst | webtrends.esBranding.js:79 | Without an occurrence the string is unchanged. With one, exactly the first occurrence (at `IndexOf`) is cut out and the rest is kept in order. |
| JsStrings.SplitOn | webtrends.esBranding.js:35 | There is always at least one part, and no part contains the separator. |
| JsStrings.JoinSplitOn | webtrends.esBranding.js:35 | Joining the parts with the separator gives back the input. |
| JsStrings.SplitOnWithout | webtrends.esBranding.js:35 | A string without the separator splits into itself alone. |
| JsStrings.SplitOnTrailing | webtrends.esBranding.js:35 | A string that ends in the separator splits into at least two parts, and the last part is empty. |
| JsStrings.IsSpace | webtrends.esBranding.js:93 | The `\s` class of `/^\s+\|\s+$/g` (also used at line 136): the ECMAScript white-space and line-terminator characters, written out. A definition with no contract of its own; `Trim` and its lemmas state what depends on it. |
| JsStrings.LeadingSpaces | webtrends.esBranding.js:93 | The count is a run of white space at the front that stops at a non-space or at the end. |
| JsStrings.TrailingSpaces | webtrends.esBranding.js:93 | The count is a run of white space at the back that stops at a non-space or at the start. |
| JsStrings.Trim | webtrends.esBranding.js:93 | The result has no white space at either end. It occurs in the input right after the leading white space, and only white space surrounds it. |
| JsStrings.LeadingSpacesOfPadded | webtrends.esBranding.js:93 | White space followed by a non-space counts exactly the white space. |
| JsStrings.TrailingSpacesOfPadded | webtrends.esBranding.js:93 | A non-space followed by white space counts exactly the white space. |
| JsStrings.TrimOfPadded | webtrends.esBranding.js:93 | A trimmed string padded with white space on both sides trims back to itself. |
| JsStrings.TrimIdempotent | webtrends.esBranding.js:93 | Trimming twice is trimming once. |
| Sanitizer.NormalizeKey | webtrends.esBranding.js:79 | The key loses the length of one `x0020_` when it has one, it has no upper-case letter, and without `x0020_` it is just lower-cased. |
| Sanitizer.NormalizeKeyFirst | webtrends.esBranding.js:79 | Only the first `x0020_` is removed: a key `a + "x0020_" + b` whose `a` has none becomes lower-case `a + b`, even when `b` has more. |
| Sanitizer.IsDelimiterAt | webtrends.esBranding.js:85 | A match of `/;#\|,#/` starts at the index: `;` or `,` followed by `#`. A definition with no contract of its own; `SplitAccount` and `JoinSplitAccount` state what depends on it. |
| Sanitizer.SplitAccount | webtrends.esBranding.js:85 | There is at least one segment, the first is a prefix of the value, and no segment holds a `;#` or `,#` delimiter. |
| Sanitizer.JoinSplitAccount | webtrends.esBranding.js:85 | Joining the segments with `;#` gives back the value with each `,#` written as `;#`, so splitting loses nothing else. |
| Sanitizer.StartsNonDigit | webtrends.esBranding.js:87 | `/^[\D]+/` matches: the segment is non-empty and its first character is not `0`-`9`. A definition with no contract of its own; `FirstNamed` and `ResolvedAccount` state what depends on it. |
| Sanitizer.FirstNamed | webtrends.esBranding.js:86-91 | The index found starts with a non-digit and no earlier segment does. -1 means no segment does. |
| Sanitizer.ResolvedAccount | webtrends.esBranding.js:84-92 | Without the account marker the value is kept. With it: the first segment starting with a non-digit replaces the value, and that segment is delimiter-free. When no segment starts with a non-digit, the value is kept. |
| Sanitizer.StripTags | webtrends.esBranding.js:93 | The result is no longer than the input and uses only characters of it. |
| Sanitizer.StripTagsKeepsClose | webtrends.esBranding.js:93 | A leading `>` is never removed. |
| Sanitizer.TagFreeCons | webtrends.esBranding.js:93 | Putting one character in front of a tag-free string keeps it tag-free, unless that character opens a tag. |
| Sanitizer.StripTagsTagFree | webtrends.esBranding.js:93 | No substring of the result matches `<[^>]+>`. |
| Sanitizer.StripTagsOfTagFree | webtrends.esBranding.js:93 | Stripping a tag-free string changes nothing. |
| Sanitizer.StripTagsEmptyPair | webtrends.esBranding.js:93 | An empty pair `<>` at the front is kept, because `[^>]+` needs at least one character; stripping goes on after it. Together with `StripTagsLeadingTag`, `StripTagsPlainPrefix` and `StripTagsOfTagFree` this fixes the result on every input. |
| Sanitizer.StripTagsLeadingTag | webtrends.esBranding.js:93 | A non-empty tag at the front is removed, and nothing else with it. |
| Sanitizer.StripTagsPlainPrefix | webtrends.esBranding.js:93 | A leading run without `<` is kept unchanged. |
| Sanitizer.TagFreeInfix | webtrends.esBranding.js:93 | A piece cut out of a tag-free string is tag-free. |
| Sanitizer.TrimTagFree | webtrends.esBranding.js:93 | Trimming a tag-free string keeps it tag-free. |
| Sanitizer.Clean | webtrends.esBranding.js:93 | The stored value has no markup left and no white space at either end, and it is no longer than the input. |
| Sanitizer.StripTagsExample | webtrends.esBranding.js:93 | `<b>Report</b>` followed by two spaces strips to `Report` and the two spaces. |
| Sanitizer.CleanExample | webtrends.esBranding.js:93 | `<b>Report</b>` followed by two spaces cleans to `Report`. |
| Sanitizer.CleanIdempotent | webtrends.esBranding.js:93 | Cleaning a value twice is cleaning it once. |
| Sanitizer.Truncate | webtrends.esBranding.js:112-115 | A value within the limit is pushed unchanged. |
| Sanitizer.TruncateLong | webtrends.esBranding.js:112-115 | A value over the limit ends in `...` and is at most two characters longer than the limit (or is `...` alone). It keeps exactly what lies before the last space within the first `limit` characters. With no space there, nothing is kept. |
| Sanitizer.TruncateExample | webtrends.esBranding.js:112-115 | `A Very Long Document Title` with a limit of 10 becomes `A Very...`. |
| Sanitizer.TruncateEmpty | webtrends.esBranding.js:110-115 | An empty, cleared value is pushed empty for any limit that is not negative. |
| Sanitizer.LinkText | webtrends.esBranding.js:136 | `el.innerText \|\| el.textContent`: an absent or empty `innerText` falls back to `textContent`. A definition without a contract of its own; `PushesValues` and its lemmas state what depends on it. |
| Sanitizer.PushesValues | webtrends.esBranding.js:135-143 | The hook pushes nothing exactly when there is no element, or when the element yields no text. An element of class `aDownload` with text pushes the values. |
| Sanitizer.DownloadPhraseRecognised | webtrends.esBranding.js:136-139 | Text that is `download asset` in any letter case, padded with any white space, pushes the values whatever the class. |
| Sanitizer.OtherLinkClears | webtrends.esBranding.js:137-142 | Any other link with text clears the values. |
| MetaData.Put | webtrends.esBranding.js:93 | The well-formed order is kept. A new key is appended, an existing key keeps its place, the key holds the new value, and other keys are unchanged. |
| MetaData.Prefix | webtrends.esBranding.js:72 | The prefix is a prefix of the id, at most four characters long, and exactly four when the id has four or more. |
| MetaData.FormCtxName | webtrends.esBranding.js:73 | The page global read for a prefix, `prefix + "FormCtx"`. A definition with no contract of its own; `Collect` states what depends on it. |
| MetaData.ErrorMessage | webtrends.esBranding.js:98 | The `meta_error` text naming the missing `window.<prefix>FormCtx` global. A definition without a contract of its own; `Collect` states where it is stored. |
| MetaData.Qualifies | webtrends.esBranding.js:82 | Only a non-empty string value is kept. A definition without a contract of its own; `StoreEntry` and `CollectListKeys` state its effect. |
| MetaData.StoredValue | webtrends.esBranding.js:82-93 | A stored value is clean. |
| MetaData.StoreEntry | webtrends.esBranding.js:78-95 | An entry whose value is not a non-empty string changes nothing. |
| MetaData.CollectList | webtrends.esBranding.js:77-96 | The loop keeps the object well-formed and only adds keys. Every value is either untouched or clean. |
| MetaData.CollectListKeys | webtrends.esBranding.js:77-96 | After the loop, a key is present exactly when it was before or some qualifying entry normalises to it. |
| MetaData.CollectListUntouched | webtrends.esBranding.js:77-96 | A key that no entry writes keeps its value, or stays absent. |
| MetaData.CollectListLastWriteWins | webtrends.esBranding.js:77-96 | When several entries normalise to one key, the last one's cleaned value is kept. |
| MetaData.Collect | webtrends.esBranding.js:67-101 | With no placeholder nothing changes. With no `FormCtx` global only the `meta_error` message is set. The object is never reset and stays well-formed. |
| MetaData.CollectFromContext | webtrends.esBranding.js:74-96 | With the data context present, collection is the loop over `ListData`. Every value is then untouched or clean. |
| MetaData.PushedValue | webtrends.esBranding.js:110-115 | The value pushed for one key: empty when clearing, then truncated. A cleared value is empty for a limit that is not negative, and an uncleared value within the limit is pushed unchanged. |
| MetaData.Payload | webtrends.esBranding.js:104-120 | Each key contributes exactly two entries. |
| MetaData.PayloadAt | webtrends.esBranding.js:104-120 | Entry pair `i` holds `WT.shp_doc_` plus key `i`, then that key's pushed value. |
| MetaData.PayloadAppend | webtrends.esBranding.js:105-118 | One more key appends its name and value. |
| MetaData.PayloadCleared | webtrends.esBranding.js:110-117 | Clearing still emits every name, each with an empty value, for a limit that is not negative. |
| MetaData.PayloadClearedNegativeLimit | webtrends.esBranding.js:110-115 | With a negative limit even a cleared value comes out as `...`. |
| MetaData.PayloadShortValue | webtrends.esBranding.js:110-117 | Without clearing, a value within the limit is pushed unchanged. |
| EsBranding.CharLimit | webtrends.esBranding.js:36 | The limit is the parsed `charLimit`, or 100 when it is absent or falsy. A definition without a contract of its own; the `Plugin` constructor states that the plugin keeps it. |
| EsBranding.Fragments | webtrends.esBranding.js:35 | `dispFormPages` lower-cased and split at commas: at least one fragment, none holding a comma, and joined with commas they give back the lower-cased setting. |
| EsBranding.Delays | webtrends.esBranding.js:43-48 | Some fragment occurs in the lower-cased path. A definition without a contract of its own; `PageGate` is proved equal to it. |
| EsBranding.GateDelays | webtrends.esBranding.js:35-56 | The plugin holds the tag: `dispFormPages` is a non-empty string and some fragment of it occurs in the lower-cased path. A definition without a contract of its own; the `Plugin` constructor and the gate lemmas state it. |
| EsBranding.PageGate | webtrends.esBranding.js:41-48 | The gate holds exactly when some configured fragment occurs in the lower-cased path. |
| EsBranding.EmptyFragmentDelays | webtrends.esBranding.js:43-47 | An empty fragment holds the tag on every page. |
| EsBranding.TrailingCommaDelaysEverywhere | webtrends.esBranding.js:35-48 | A trailing comma in `dispFormPages` holds the tag on every page. |
| EsBranding.SinglePageGate | webtrends.esBranding.js:35-48 | A single configured page holds the tag exactly on the paths that contain it, ignoring case. |
| EsBranding.GateIgnoresPathCase | webtrends.esBranding.js:42 | The gate does not depend on the letter case of the path. |
| EsBranding.ResolveAccount | webtrends.esBranding.js:84-92 | The loop with its `break` computes `ResolvedAccount`. |
| EsBranding.Hit.constructor | webtrends.esBranding.js:117 | A hit holds the element and the parameter list it was given. |
| EsBranding.Plugin.constructor | webtrends.esBranding.js:33-64 | After set-up the plugin is valid, `metaObject` is empty and the limit is `charLimit` or 100. On a matching page the tag is held (no host call, hooks installed, poll running). Otherwise the host is called back once and no hooks are installed. |
| EsBranding.Plugin.Register | webtrends.esBranding.js:25-31 | The host is called back exactly once, however often `register` runs. |
| EsBranding.Plugin.Poll | webtrends.esBranding.js:59-64 | The poll stops and releases the tag exactly on the first tick whose ready state is `complete`. Other ticks change nothing. |
| EsBranding.Plugin.CollectData | webtrends.esBranding.js:67-101 | `metaObject` becomes `Collect` of its old value. The flags and the host count are unchanged. |
| EsBranding.Plugin.StoreProperty | webtrends.esBranding.js:78-94 | One `ListData` property updates `metaObject` as `StoreEntry` says. |
| EsBranding.Plugin.Store | webtrends.esBranding.js:93 | `metaObject[key] = value` updates the object as `Put` says. |
| EsBranding.Plugin.PushData | webtrends.esBranding.js:104-120 | `argsa` grows by exactly the `Payload` of the stored keys, in order, and nothing else changes. |
| EsBranding.Plugin.OnPageView | webtrends.esBranding.js:123-130 | With hooks installed, the hook re-collects and then pushes the values without clearing. Without hooks nothing happens. |
| EsBranding.Plugin.OnLinkClick | webtrends.esBranding.js:133-145 | With hooks installed, the hook pushes or clears as `PushesValues` decides. It pushes nothing when that faults, and nothing without hooks. |

## Left out

- The DOM and the page globals are inputs. The `querySelector` match on
  `ClientFormPlaceholder`, the `window[...]` lookup and `ListData` as an
  object are given as a `Page` value. `ListData`'s own properties are given
  in enumeration order, and a `ListData` that is not an object is not
  modelled.
- Timing is left out. The 100 ms `setInterval` becomes one `Poll` call per
  tick, with the ready state as a parameter.
- The host API is left out. `tag.registerPluginCallback`,
  `Webtrends.addTransform` and `Webtrends.registerPlugin` are not modelled.
  A host call is counted, and an installed transform is a flag. An
  `addTransform` that throws is not modelled.
- Exceptions are modelled only where the plugin catches them on purpose:
  - a truthy non-string `dispFormPages`, which releases the tag;
  - a click with no element or no text, which pushes nothing.

  Other throws inside the hooks are not modelled.
- `charLimit` parsing is left out. The model takes the number `parseInt`
  returns, with absent or falsy as `None` (meaning 100). A `NaN` from an
  unparsable string, which would disable truncation, is not modelled.
- Lengths and indices count Unicode code points, while JavaScript's
  `length` and `substring` count UTF-16 code units. So `Truncate` (lines
  112-113) and `Prefix` (line 72) differ from the source on text outside
  the Basic Multilingual Plane. For example, three emoji with a limit of 4
  are pushed unchanged here, while the source sees length 6 and pushes
  `...`. A cut in the middle of a surrogate pair, which the source can
  make, cannot be represented.
- JsStrings.Lower: lower-cases ASCII letters only, while `toLowerCase`
  handles all of Unicode.
- `metaObject`'s key order is first insertion. JavaScript puts keys that
  look like array indices first; that is not modelled.
- `className` on elements whose class name is not a string (such as SVG
  elements) is not modelled.
- Sanitizer.Truncate: its own contract covers only values within the
  limit. The behaviour over the limit is stated in `TruncateLong`.
