# KeyboardCompositor, modelled in Dafny

KeyboardCompositor is a browser extension that turns Latin keystrokes typed
into a text field into the letters of another script. Its content script
listens to `keyup` on each equipped field. On every keyup it rereads the
field's text and caret. It then looks for the widest window of 3, 2 or 1
characters that ends at the caret and is a key of the field's mapping.
It deletes that window one character at a time and types the mapped text
one character at a time. Each step dispatches the key events a user's
typing would.

Letters typed with several keys come from rewriting text that was already
converted. In the Russian table, `s`,`h` gives ш. Then `c` gives шс, and
`h` rewrites `шсh` to щ.

The project models:

- `js.dfy` (module `Js`): the JavaScript semantics the scripts rely on.
  This covers `String.prototype.slice` with negative-index normalisation,
  attribute truthiness, and how `null` becomes the property key `"null"`.
- `dom.dfy` (module `Dom`): a text field (`Element`) with its attributes,
  `value`, selection, listener flag and logs of key and focus events.
  `Element.Type` and `Press` are the browser's default action for a typed
  key: its keydown, keypress and keyup, and the character inserted at the
  caret. This is an assumption about the browser, not code of the
  extension. It lets the test scenarios be stated as lemmas.
- `rewriter.dfy` (module `Rewriter`): the keyup rewrite shared by both
  content scripts. It holds the search loop, the deletion loop and the
  insertion loop as methods over an `Element`. The specification functions
  are `Decide` (the widest matching window) and `Release` (the field after
  the rewrite). Lemmas state the splice, the step-by-step edits and the
  event sequence.
- `content_script.dfy` (module `ContentScript`): the current content script
  (src/kc_content_script.js). It holds the mapping cache and the
  `KeyMapper` class with `handleEvent`, `onKeyDown` and `onKeyUp`. It also
  holds `loadMapping`, the three passes of `searchTextFields`, and the
  `GET_LANG`/`SET_LANG`/`REMOVE_LANG` message handler. The handler walks up
  to the editing host first.
- `background.dfy` (module `Background`): the context menu
  (src/kc_background.js). This covers the radio items built from the
  mapping list, the message a click sends, and which item is checked and
  how "None" is titled when the menu is shown.
- `protocol.dfy` (module `Protocol`): the mapping list entries, `list.find`,
  and the messages shared by the two scripts.
- `legacy_script.dfy`, `legacy_typing.dfy`, `legacy_alphabet.dfy` (modules
  `LegacyScript`, `LegacyTyping`, `LegacyAlphabet`): the first content
  script (kc_content_script.js). These files hold its constant Russian
  table, its keyup listener, and what typing in a field gives with that
  table. That covers every one-key letter, every composed letter typed
  four times with the tests' event counts, and the whole alphabet in both
  cases.

A mapping is a function `string -> Option<string>`, the way the scripts
index a JavaScript object (`None` is `undefined`). The Russian table is
written as a function by key length. A fetched JSON table is a
`map<string, string>` that `ContentScript.AsMapping` turns into such a
function.

## Model

| member | source | states |
|---|---|---|
| `Js.Slice` | src/kc_content_script.js:167 | `t.slice(a, b)` is `t[a..b]` when `0 <= a <= b <= t.length`, and never longer than `t` |
| `Js.SliceFromEnd` | src/kc_content_script.js:167 | a start `-k` (with `k <= t.length`) counts `k` back from the end: `t.slice(-k, b)` is `t[t.length-k..b]` |
| `Js.SliceEmptyRange` | src/kc_content_script.js:167 | `t.slice(a, b)` is "" when the normalised start is not before the end: `0 <= b <= a`, or `a = -k` landing at or after `b` |
| `Js.SliceBeforeStartIsEmpty` | src/kc_content_script.js:166-169 | a window wider than the caret offset (but not wider than the text) slices to "" |
| `Js.PropertyKey` | src/kc_content_script.js:146-150 | a `null` attribute indexes the cache as "null", a string as itself |
| `Protocol.Find` | src/kc_background.js:76 | `list.find` gives the first entry whose code equals the attribute, and nothing exactly when no code equals it |
| `Rewriter.MatchWidth` | src/kc_content_script.js:166-172 | the width the search stops at matches, and no wider width up to 3 matches; 0 when none does |
| `Rewriter.Decide` | src/kc_content_script.js:166-174 | no rewrite exactly when no window of width 1–3 (within the text's length) is a key; otherwise the widest matching width and the mapped text |
| `Rewriter.WidthWithinCaret` | src/kc_content_script.js:166-169 | with no empty key in the table, the chosen window never reaches before the start of the text |
| `Rewriter.DecideAtEnd` | src/kc_content_script.js:166-174 | with the caret at the end, the last 3, then 2, then 1 characters are tried, widest first |
| `Rewriter.RewrittenSplicesWindow` | src/kc_content_script.js:217 | the final value is `t[..pos-l] + keys + t[pos..]`: text before the window and after the caret unchanged |
| `Rewriter.BackspaceEventsAt` | src/kc_content_script.js:176-197 | the deletions dispatch exactly `l` Backspace keydown/keyup pairs, alternating |
| `Rewriter.InsertEventsAt` | src/kc_content_script.js:199-223 | the j-th inserted character dispatches keydown, keypress and keyup carrying `keys[j]` and the raw event's shift state |
| `Rewriter.RewriteEvents` | src/kc_content_script.js:176-223 | a rewrite dispatches `2·l + 3·keys.length` events: the Backspace pairs, then the insertion triples |
| `Rewriter.EachStepEditsOneCharacter` | src/kc_content_script.js:176-223 | each deletion step removes the character just before the caret, each insertion step adds the next mapped character at the caret, and the last step leaves the final value |
| `Rewriter.Apply` | src/kc_content_script.js:174-223 | the field after a decided rewrite: the spliced value, the caret at `pos-l+keys.length`, the rewrite's events appended; unchanged when there is none |
| `Rewriter.Release` | src/kc_content_script.js:165-223 | the keyup rewrite as a value: unchanged when no window matches, otherwise the splice, caret and events of the widest match |
| `Rewriter.ReleaseAtEnd` | src/kc_content_script.js:165-223 | with the caret at the end, the rewritten text ends with the mapped keys and the caret stays at the end |
| `Rewriter.RewroteIsRelease` | src/kc_content_script.js:165-223 | the field the rewrite method leaves is what `Release` computes |
| `Rewriter.SearchWidth` | src/kc_content_script.js:166-169 | the decreasing `for`/`break` search returns the widest matching width, or 0 |
| `Rewriter.DeleteWindow` | src/kc_content_script.js:176-197 | after `l` deletions the value is `t[..pos-l] + t[pos..]`, the caret at `pos-l`, `l` Backspace pairs logged |
| `Rewriter.DeleteOne` | src/kc_content_script.js:191-196 | one deletion: Backspace keydown, the value without the c-th character before the caret, caret moved back, Backspace keyup |
| `Rewriter.InsertKeys` | src/kc_content_script.js:199-223 | after the insertions the value is the splice and the caret follows the mapped text; one triple per character logged |
| `Rewriter.InsertKey` | src/kc_content_script.js:216-222 | one insertion: keydown, the value with the first c mapped characters, keypress, caret after them, keyup |
| `Rewriter.Rewrite` | src/kc_content_script.js:176-223 | the deletions then the insertions give the splice, the caret at `pos-l+keys.length`, and exactly the rewrite's events |
| `Rewriter.ApplyMapping` | src/kc_content_script.js:165-223 | the search then the rewrite: the field ends as `Decide` says, unchanged when nothing matches |
| `ContentScript.AsMapping` | src/kc_content_script.js:167 | a fetched table answers exactly its keys, with their values |
| `ContentScript.MappingName` | src/kc_content_script.js:146-148 | the mapping name is `kc-lang` when it is non-empty, otherwise `lang` |
| `ContentScript.ActiveTable` | src/kc_content_script.js:146-158 | a table is used exactly when the name's cache entry is loaded; absent or pending gives none |
| `ContentScript.Loading` | src/kc_content_script.js:347-356 | loading adds the name; an absent entry becomes pending; every existing entry is kept |
| `ContentScript.LoadingIdempotent` | src/kc_content_script.js:347-356 | loading a name twice is loading it once |
| `ContentScript.PassesCoverQualifying` | src/kc_content_script.js:305-337 | the three passes together load exactly the languages of the qualifying fields |
| `ContentScript.HostIndex` | src/kc_content_script.js:393-396 | the walk stops at the first element that is not editable by inheritance only, or runs past the root |
| `ContentScript.FindEditingHost` | src/kc_content_script.js:393-394 | the `while` walk up the parent chain stops where `HostIndex` says |
| `ContentScript.Respond` | src/kc_content_script.js:398-418 | `GET_LANG` replies `[lang, kc-lang]` and changes nothing; `SET_LANG` sets `kc-lang`, then installs only when the code is listed (an unlisted code throws in `addLanguageIcon`, lines 259 and 408), there was no override and `lang` is not listed; `REMOVE_LANG` clears it and uninstalls only when there was an override and `lang` is not listed |
| `ContentScript.GetAfterSet` | src/kc_content_script.js:400-407 | `GET_LANG` after `SET_LANG(code)` replies `[lang, code]` |
| `ContentScript.GetAfterRemove` | src/kc_content_script.js:400-413 | `GET_LANG` after `REMOVE_LANG` replies `[lang, null]` |
| `ContentScript.RespondKeepsInstalled` | src/kc_content_script.js:405-415 | every command whose `SET_LANG` code is non-empty and listed (as the menu's are) keeps "listening exactly when `lang` is listed or there is an override" |
| `ContentScript.CommandsKeepInstalled` | src/kc_content_script.js:390-419 | any series of such commands keeps that invariant |
| `ContentScript.SetSelectsOverride` | src/kc_content_script.js:405-410 | after `SET_LANG(code)` keyups use `code`'s table, and the field listens exactly when it did before or `code` is listed |
| `ContentScript.CommandsKeepJustified` | src/kc_content_script.js:390-419 | any series of commands with non-empty codes, listed or not, never leaves a field listening when neither `lang` is listed nor an override is set |
| `ContentScript.UnlistedSetLeavesDeaf` | src/kc_content_script.js:405-410 | `SET_LANG` of an unlisted code on a field that did not listen sets `kc-lang` but installs nothing, so the invariant above is lost |
| `ContentScript.RemoveRestoresDefault` | src/kc_content_script.js:411-415 | after `REMOVE_LANG` keyups use `lang` again, and the field listens exactly when `lang` is listed |
| `ContentScript.KeyMapper.constructor` | src/kc_content_script.js:22 | the cache starts empty |
| `ContentScript.KeyMapper.LoadMapping` | src/kc_content_script.js:347-356 | the cache becomes `Loading(old cache, name)` |
| `ContentScript.KeyMapper.MappingFetched` | src/kc_content_script.js:353 | the fetch's completion stores the loaded table under its name |
| `ContentScript.KeyMapper.HandleEvent` | src/kc_content_script.js:107-115 | with alt, ctrl or meta held nothing changes; keydowns and keyups go to their handlers |
| `ContentScript.KeyMapper.OnKeyDown` | src/kc_content_script.js:125-135 | Enter logs a blur then a focus and restores selectionStart/selectionEnd; other keys change nothing |
| `ContentScript.KeyMapper.OnKeyUp` | src/kc_content_script.js:144-224 | unchanged when the table is absent or pending or the selection is undefined or not collapsed; otherwise the rewrite `Decide` chooses |
| `ContentScript.KeyMapper.Equip` | src/kc_content_script.js:308-314 | a field whose `lang` is a listed code loads that table and gets listeners; others are untouched |
| `ContentScript.KeyMapper.SearchPass` | src/kc_content_script.js:307-315 | a pass equips exactly the fields it visits whose `lang` is listed, and loads their tables |
| `ContentScript.KeyMapper.Visit` | src/kc_content_script.js:307-337 | a field is equipped only when the pass visits it |
| `ContentScript.KeyMapper.SearchTextFields` | src/kc_content_script.js:305-338 | a field gets listeners exactly when it is a textarea, a `type="text"` input or `contentEditable="true"` and its `lang` is listed |
| `ContentScript.KeyMapper.OnMessage` | src/kc_content_script.js:390-419 | nothing happens when no editing host is found; otherwise the host changes as `Respond` says (for an unlisted `SET_LANG` code the handler stops after setting `kc-lang`), `SET_LANG` loads the table, and no other element changes |
| `Background.InstallMappings` | src/kc_background.js:23-63 | the menu is "None" (no mapping, checked) then one item per list entry in list order |
| `Background.OnClick` | src/kc_background.js:9-19 | no message on a non-editable target; `SET_LANG` with the element and the code when the code is truthy; `REMOVE_LANG` with the element otherwise |
| `Background.DefaultTitle` | src/kc_background.js:76-78 | "Default (<name>)" when `lang` is a listed code, "None" otherwise |
| `Background.Shown` | src/kc_background.js:74-85 | each item is checked exactly when its mapping `==` the override; falsy items are retitled |
| `Background.ShownSelects` | src/kc_background.js:74-85 | showing the menu keeps every item's mapping |
| `Background.CheckedIsOverride` | src/kc_background.js:79-83 | an item is checked exactly when its mapping equals the override: "None" exactly when there is none |
| `Background.OneChecked` | src/kc_background.js:74-85 | with distinct codes at most one item is checked, and one is exactly when the override is none or listed |
| `Background.ClickThenShow` | src/kc_background.js:9-19 | after a click is handled, the next menu shows exactly the clicked item checked |
| `LegacyScript.Russian` | kc_content_script.js:4-120 | every key has 1–3 characters and every value is one letter |
| `LegacyScript.CaseFollowsFirstKey` | kc_content_script.js:34-117 | every key starts with a letter, and the output's case is that first key's case |
| `LegacyScript.LaterKeysIgnoreCase` | kc_content_script.js:34-59 | swapping the case of any key after the first gives the same letter (`yA` as `ya`) |
| `LegacyScript.UpperMirrorsLower` | kc_content_script.js:63-120 | a capital first key gives the capital of what the small one gives, and nothing when it gives nothing |
| `LegacyScript.KeyUpListener` | kc_content_script.js:133-187 | nothing with alt, ctrl or meta held or a selection; otherwise the rewrite by the Russian table |
| `LegacyScript.TypeKey` | kc_content_script.js:133-187 | typing a key then running the listener ends as `Keystroke` |
| `LegacyScript.TypeString` | kc_content_script.js:133-187 | typing a string key by key ends as `TypeKeys` |
| `LegacyScript.EndRewriteIsDecide` | kc_content_script.js:143-152 | at the end of the text the listener's search picks the 3-, then 2-, then 1-character entry |
| `LegacyScript.KeystrokeAtEnd` | kc_content_script.js:143-186 | a key typed at the end gives `Typed` and its events; the caret stays at the end |
| `LegacyScript.TypeKeysAppend` | kc_content_script.js:133-187 | typing `a` then `b` is typing `a + b` |
| `LegacyScript.TypeKeysAtEnd` | kc_content_script.js:133-187 | typing at the end of the text is `TypedAll`, with `TypedAllEvents` logged |
| `LegacyTyping.LetterAfterItself` | test.py:111-119 | typing a letter's keys after copies of that letter adds one copy, with the letter's event count |
| `LegacyTyping.RepeatedLetter` | test.py:111-119 | typing a letter's keys i times gives the letter i times, with i times its event count |
| `LegacyTyping.TypedInField` | test.py:111-119 | in an empty field, typing the keys i times leaves the letter i times and the caret after them |
| `LegacyTyping.SingleKeyFourTimes` | test/test.py:120-133 | `a` typed four times gives аааа with 8 events each |
| `LegacyTyping.PrefixPairFourTimes` | test/test.py:163-172 | `ya` typed four times gives яяяя with 5·2+3 events each |
| `LegacyTyping.SuffixPairFourTimes` | test/test.py:202-211 | `ts` typed four times gives цццц with 11+2·2+3 events each |
| `LegacyTyping.ShchaFourTimes` | test/test.py:248-257 | `SHCH` typed four times gives ЩЩЩЩ with 33 events each |
| `LegacyTyping.LowerSingleAF` | kc_content_script.js:7-12 | a–f are one-key letters а б с д е ф |
| `LegacyTyping.LowerSingleGM` | kc_content_script.js:13-19 | g i j k l m give г и ж к л м |
| `LegacyTyping.LowerSingleNU` | kc_content_script.js:20-27 | n o p r t u give н о п р т у |
| `LegacyTyping.LowerSingleVE` | kc_content_script.js:28-61 | v x z è give в х з э |
| `LegacyTyping.UpperSingleAF` | kc_content_script.js:65-70 | A–F give А Б С Д Е Ф |
| `LegacyTyping.UpperSingleGM` | kc_content_script.js:71-77 | G I J K L M give Г И Ж К Л М |
| `LegacyTyping.UpperSingleNU` | kc_content_script.js:78-85 | N O P R T U give Н О П Р Т У |
| `LegacyTyping.UpperSingleVE` | kc_content_script.js:86-119 | V X Z È give В Х З Э |
| `LegacyTyping.UpperSoftVowelsA` | kc_content_script.js:92-95 | YA, Ya give Я; YI, Yi give Й |
| `LegacyTyping.UpperSoftVowelsB` | kc_content_script.js:96-99 | YO, Yo give Ё; YU, Yu give Ю |
| `LegacyTyping.UpperSoftVowelsC` | kc_content_script.js:100-101 | YY, Yy give Ы |
| `LegacyTyping.UpperCompoundA` | kc_content_script.js:103-106 | TS, Ts give Ц (via Т); SH, Sh give Ш |
| `LegacyTyping.UpperCompoundB` | kc_content_script.js:107-108 | CH, Ch give Ч (via С) |
| `LegacyTyping.UpperShchaA` | kc_content_script.js:109-112 | SH then С or с then H or h give Щ |
| `LegacyTyping.UpperShchaB` | kc_content_script.js:109-112 | Sh then С or с then H or h give Щ |
| `LegacyTyping.UpperSigns` | kc_content_script.js:114-117 | QD, Qd give Ъ; QS, Qs give Ь |
| `LegacyTyping.LowerSoftVowelsA` | kc_content_script.js:34-37 | ya, yA give я; yi, yI give й |
| `LegacyTyping.LowerSoftVowelsB` | kc_content_script.js:38-41 | yo, yO give ё; yu, yU give ю |
| `LegacyTyping.LowerSoftVowelsC` | kc_content_script.js:42-43 | yy, yY give ы |
| `LegacyTyping.LowerCompoundA` | kc_content_script.js:45-48 | ts, tS give ц (via т); sh, sH give ш |
| `LegacyTyping.LowerCompoundB` | kc_content_script.js:49-50 | ch, cH give ч (via с) |
| `LegacyTyping.LowerShchaA` | kc_content_script.js:51-54 | sh then с or С then h or H give щ |
| `LegacyTyping.LowerShchaB` | kc_content_script.js:51-54 | sH then с or С then h or H give щ |
| `LegacyTyping.LowerSigns` | kc_content_script.js:56-59 | qd, qD give ъ; qs, qS give ь |
| `LegacyTyping.LongestWindowWins` | kc_content_script.js:49-54 | after шс, typing h rewrites `шсh` to щ although `сh` alone is ч |
| `LegacyTyping.NoSingleKeyLower` | kc_content_script.js:14-31 | h, q, s, w, y have no entry of their own |
| `LegacyTyping.NoSingleKeyUpper` | kc_content_script.js:72-89 | H, Q, S, W, Y have no entry of their own |
| `LegacyTyping.LoneKey` | kc_content_script.js:148-150 | a key without an entry typed into an empty field stays as typed, with only its own three events |
| `LegacyAlphabet.LowerAlphabet` | test.py:157-169 | the space-separated groups `a b v … yu ya` typed in order give "абвгдеёжзийклмнопрстуфхчшщцъыьэюя", one letter per group |
| `LegacyAlphabet.UpperAlphabet` | test.py:152-169 | the groups `A B V … YU YA` typed in order give "АБВГДЕЁЖЗИЙКЛМНОПРСТУФХЧШЩЦЪЫЬЭЮЯ", one letter per group |

## Left out

- I/O and asynchrony: the `fetch` of the mapping list and of each JSON
  table, the promise that fills the cache, `MutationObserver`,
  `addEventListener`, and the `browser.menus` and `browser.tabs` calls.
  Loading completion is the explicit step `KeyMapper.MappingFetched`. A
  failed fetch, which leaves the entry pending for good, is not modelled.
- The JSON tables of src/kc_content_script.js (Russian, Greek, French,
  German) are not part of this model. The rewriter takes any table as a
  parameter. The concrete lemmas use the inline Russian table of
  kc_content_script.js.
- A table with an empty-string key: the rewriter requires `M("")` to be
  `undefined`, and `KeyMapper.MappingFetched` requires `"" !in table`. With
  such a key the guard `l <= t.length` would let a window wider than the
  caret match "", and the slices in the loops would wrap around.
- Keys that JavaScript objects inherit from `Object.prototype` (a mapping
  named `toString`, say): the cache and the tables are modelled as plain
  maps.
- `wrapEventTarget`: the Selection/Range shims for `contentEditable`
  fields. `value` and the selection are plain fields of `Element`.
- `addLanguageIcon`/`removeLanguageIcon`: DOM insertion and pixel layout.
  Only the throw of `addLanguageIcon` for a code with no list entry is
  modelled, as the end of the `SET_LANG` handler.
- `RespondKeepsInstalled` and `CommandsKeepInstalled` hold only for
  `SET_LANG` codes that are listed. An unlisted code throws before the
  install, so the field's listening no longer follows its languages
  (`UnlistedSetLeavesDeaf`). The one-way `CommandsKeepJustified` holds for
  every non-empty code.
- `LegacyScript.TypedShift`: typed keys, capitals included, carry
  `shiftKey` false, as the test harness expects of every logged event. A
  user who types capitals with Shift would see `shiftKey` true on the
  typed and the synthetic events. The strings and event counts are the
  same either way.
- `input` events and the `code`/`view`/`bubbles` fields of the synthetic
  events. Only key events, with their key and shift state, are logged.
- Listener re-entrancy during `dispatchEvent`: the synthetic events are
  appended to a log and reach no listener.
- `ContentScript.KeyMapper.OnMessage` receives the target element's parent
  chain directly. The choice between `browser.menus.getTargetElement` and
  `document.activeElement` (src/kc_content_script.js:391) is not modelled.
- `ContentScript.KeyMapper.OnKeyDown`: the browser may move the caret when
  the field is refocused. That position is a parameter, and the handler
  then restores the saved selection.
- `ContentScript.InPass`: the editable pass tests the `contentEditable`
  property for "true". The source's selector `[contentEditable="true"]`
  tests the attribute, case-sensitively. The two differ for an empty value
  and for case variants of "true" such as "TRUE", which the property
  reports as "true".
- `Background.InstallMappings`: the menu ids, the `editable` context and
  the creation callbacks are not modelled.
- The `searchTextFields` of kc_content_script.js (lines 198-210), which
  equips textareas and text inputs whose `lang` is "ru", is not modelled.
  Its qualification test is the same as the first two passes of
  `ContentScript.KeyMapper.SearchTextFields` with the list holding only
  "ru".
- The superseded kc_background.js, the test bridge
  test/src/kc_test_content_script.js and the Selenium harnesses are not
  part of this model. The harnesses are used only as the source of
  expected strings and event counts.
- Strings are sequences of UTF-16 code units, as in JavaScript. Every
  character the tables use is in the Basic Multilingual Plane, so
  `seq<char>` is faithful.
