# Label form and background coordinator of the Fultum Chrome extension

This project models two parts of the extension.

The **label form** (`chrome_extension/labelForm.js`) is the popup where the
user enters a Functional Area label and a free-text list of sub-areas. On
submit it does three things:

- It trims the label and refuses an empty one with an alert.
- It splits the sub-area text on `,` and newline, trims each piece and drops
  the empty ones.
- It sends `{action: 'submitLabel', data: {faLabel, subAreas}}` and, once
  the response arrives, either closes the window or alerts and stays open.

Cancel closes the window without sending anything.

The **background coordinator** (`chrome_extension/background.js`) is a
small state machine with two module variables, `labelFormWindowId` and
`originTabId`. It reacts to these events:

- installation, which registers two context-menu items;
- context-menu clicks;
- internal messages `openLabelForm` and `submitLabel`;
- external `FROM_PAGE` messages `submitLabel` and `cancelLabel`.

Every browser call it makes is recorded as an `Effect` value: create a menu
item, send to a tab, create the popup, reply through `sendResponse`, remove
a window. The two callbacks it registers are events of their own:

- the window-created callback;
- the tab-answered callback.

The `sendResponse` function they answer through is represented by a `port`
number.

The project has six files, one module each (`label_form.dfy` adds a second
module of worked examples):

- `sequences.dfy` (Sequences): generic facts about concatenation and
  slicing that the string and list proofs cite.
- `messages.dfy` (Messages): the message shapes.
- `js_string.dfy` (JsString): `String.prototype.trim` over the full
  ECMAScript whitespace and line-terminator set, and `split(/[,\n]/)`.
- `label_form.dfy` (LabelForm, LabelFormExamples): the form's logic as pure
  functions, with lemmas about the sub-area parser.
- `background.dfy` (Background): the coordinator in two forms.
  - As pure functions over a `State` value, with a trace semantics `Run`
    for the routing lemmas.
  - As a class `Coordinator` with the two fields and an effect log, one
    method per listener, each proved equal to the pure handler.
- `label_flow.dfy` (LabelFlow): lemmas joining the form and the
  coordinator.

## Model

| member | source | states |
|---|---|---|
| Messages.SubmitRequest | chrome_extension/labelForm.js:11-13 | the request has action `submitLabel` and carries exactly the given label and sub-areas under `data` |
| JsString.IsWhitespace | chrome_extension/labelForm.js:6 | the characters `trim()` strips: the ECMAScript WhiteSpace and LineTerminator code points (tab, vertical tab, form feed, space, no-break space, byte-order mark, the Zs spaces, LF, CR, LS, PS); the trim lemmas below are stated relative to it |
| JsString.TrimStart | chrome_extension/labelForm.js:6 | the result is a suffix of the input (index by index) that is empty or starts with a non-whitespace character |
| JsString.TrimEnd | chrome_extension/labelForm.js:6 | the result is a prefix of the input that is empty or ends with a non-whitespace character |
| JsString.TrimStartDropsWhitespace | chrome_extension/labelForm.js:6 | everything the leading trim removes is whitespace |
| JsString.TrimEndDropsWhitespace | chrome_extension/labelForm.js:6 | everything the trailing trim removes is whitespace |
| JsString.Trim | chrome_extension/labelForm.js:6 | `trim()` yields a string with no leading or trailing whitespace |
| JsString.TrimEmptyIff | chrome_extension/labelForm.js:6-8 | the trim is empty exactly when the input is all whitespace (both directions) |
| JsString.TrimIsUnique | chrome_extension/labelForm.js:6 | whitespace + trimmed middle + whitespace trims to that middle, so trim removes exactly the surrounding whitespace |
| JsString.BlankTrimsToEmpty | chrome_extension/labelForm.js:6-8 | whitespace followed by whitespace trims to the empty string, so such a label is refused |
| JsString.TrimStartOf | chrome_extension/labelForm.js:6 | leading whitespace before a non-whitespace start is all that the leading trim drops |
| JsString.TrimEndOf | chrome_extension/labelForm.js:6 | trailing whitespace after a non-whitespace end is all that the trailing trim drops |
| JsString.TrimOfTrimmed | chrome_extension/labelForm.js:6 | a string without surrounding whitespace is its own trim |
| JsString.TrimIdempotent | chrome_extension/labelForm.js:6 | trimming twice equals trimming once |
| JsString.IsSeparator | chrome_extension/labelForm.js:9 | the characters the class `/[,\n]/` matches: comma and line feed only |
| JsString.Separators | chrome_extension/labelForm.js:9 | the separators found are all `,` or newline and no more than the input's length |
| JsString.Split | chrome_extension/labelForm.js:9 | `split(/[,\n]/)` gives one more piece than there are separators, and no piece holds a separator |
| JsString.SplitJoin | chrome_extension/labelForm.js:9 | re-joining the pieces with the separators found gives back the input, so splitting loses nothing |
| JsString.JoinAfterSeparator | chrome_extension/labelForm.js:9 | an empty first piece puts the first separator at the front of the joined text |
| JsString.JoinExtendFirst | chrome_extension/labelForm.js:9 | a character prepended to the first piece is prepended to the joined text |
| JsString.SplitAtSeparator | chrome_extension/labelForm.js:9 | the pieces of `a + sep + b` are the pieces of `a` followed by those of `b` |
| JsString.SplitNoSeparator | chrome_extension/labelForm.js:9 | text without a separator is a single piece |
| JsString.SplitOfJoin | chrome_extension/labelForm.js:9 | splitting separator-free pieces joined by separators gives back the same pieces |
| LabelForm.TrimAll | chrome_extension/labelForm.js:9 | `.map(item => item.trim())` keeps the length and trims each element in place |
| LabelForm.DropEmpty | chrome_extension/labelForm.js:9 | `.filter(Boolean)` yields no empty string and never grows the list; what it keeps and in which order are stated by the next two rows and DropEmptyAppend |
| LabelForm.DropEmptyKeepsNonEmpty | chrome_extension/labelForm.js:9 | the filter keeps every non-empty string as often as it occurs and removes every empty one |
| LabelForm.DropEmptyOne | chrome_extension/labelForm.js:9 | a single string is kept exactly when it is non-empty; with DropEmptyAppend the kept strings stay in input order |
| LabelForm.DropEmptyCons | chrome_extension/labelForm.js:9 | the filter keeps the head exactly when it is non-empty, ahead of the filtered rest |
| LabelForm.TrimAllAppend | chrome_extension/labelForm.js:9 | the trimming map distributes over concatenation |
| LabelForm.DropEmptyAppend | chrome_extension/labelForm.js:9 | the filter distributes over concatenation |
| LabelForm.TrimKeepsNoSeparator | chrome_extension/labelForm.js:9 | trimming a separator-free piece leaves it separator-free |
| LabelForm.TrimStartKeepsNoSeparator | chrome_extension/labelForm.js:9 | dropping leading whitespace from a separator-free piece leaves it separator-free |
| LabelForm.TrimEndKeepsNoSeparator | chrome_extension/labelForm.js:9 | dropping trailing whitespace from a separator-free piece leaves it separator-free |
| LabelForm.CleanPieces | chrome_extension/labelForm.js:9 | trimming and filtering separator-free pieces leaves only non-empty, trimmed, separator-free strings |
| LabelForm.ParseSubAreas | chrome_extension/labelForm.js:9 | every sub-area is non-empty, has no surrounding whitespace and holds no `,` or newline; there are at most one more than the separators |
| LabelForm.ParseSubAreasAtSeparator | chrome_extension/labelForm.js:9 | the sub-areas of text cut at a separator are those before it followed by those after it, so order is kept |
| LabelForm.ParseSubAreasOnePiece | chrome_extension/labelForm.js:9 | separator-free text gives its trim as the only sub-area, or none when it is all whitespace |
| LabelForm.ParseSubAreasOfJoin | chrome_extension/labelForm.js:9 | the result is exactly the in-order list of trimmed, non-empty pieces between separators |
| LabelForm.CleanPiecesUnchanged | chrome_extension/labelForm.js:9 | trimming and filtering a list of clean sub-areas changes nothing |
| LabelForm.ParseSubAreasRoundTrip | chrome_extension/labelForm.js:9 | clean sub-areas written out with any separators parse back to the same list |
| LabelForm.ParseSubAreasOfBlank | chrome_extension/labelForm.js:9 | text made only of separators and whitespace gives no sub-areas |
| LabelForm.Submit | chrome_extension/labelForm.js:6-30 | the label is refused with the "Please enter…" alert exactly when it is all whitespace; otherwise the trimmed, non-empty label and the parsed sub-areas are sent; submit never closes without sending |
| LabelForm.SubmitIgnoresSurroundingWhitespace | chrome_extension/labelForm.js:6-8 | whitespace around the label never changes the outcome of submit |
| LabelForm.HandleClick | chrome_extension/labelForm.js:4-37 | exactly the cancel button closes without sending; a submit click has exactly submit's outcome, so a non-blank label is sent; a send only comes from submit |
| LabelForm.SentRequest | chrome_extension/labelForm.js:8-30 | a message goes out exactly when the outcome is a send, and it is `submitLabel` with `data` holding that label and those sub-areas |
| LabelForm.OnSubmitResponse | chrome_extension/labelForm.js:14-26 | the window closes exactly when there is no `lastError` and `response.success` holds; a `lastError` alerts its message with the error prefix; every other path alerts the retry message |
| LabelFormExamples.ParseSubAreasOfOne | chrome_extension/labelForm.js:9 | a single clean sub-area parses to itself |
| LabelFormExamples.ParseSubAreasOfPadded | chrome_extension/labelForm.js:9 | a leading blank before a lone sub-area is dropped |
| LabelFormExamples.ParseSubAreasCons | chrome_extension/labelForm.js:9 | a clean sub-area before a separator heads the parsed list |
| LabelFormExamples.ParseSubAreasCommaNewline | chrome_extension/labelForm.js:9 | any text shaped `a, b\nc` with clean `a`, `b`, `c` gives `[a, b, c]` |
| LabelFormExamples.ParseSubAreasExample | chrome_extension/labelForm.js:9 | `"a, b\nc"` gives `["a", "b", "c"]` |
| LabelFormExamples.ParseSubAreasOfBlankExample | chrome_extension/labelForm.js:9 | `"  ,  \n "` gives `[]` |
| Background.InstallEffects | chrome_extension/background.js:14-24 | installation creates two menu items, `labelElement` then `showLabels`, both for context `all` |
| Background.MenuClickEffects | chrome_extension/background.js:33-41 | a click sends something exactly when the id is `labelElement` or `showLabels` and there is a tab, and then sends only `{action: id}` to that tab; every other id does nothing |
| Background.MenuItemsAreHandled | chrome_extension/background.js:14-41 | each registered menu item is one the click handler forwards to the tab |
| Background.OpenPopup | chrome_extension/background.js:72-76 | the `chrome.windows.create` call: a `popup` window of 400 by 500 showing `labelForm.html`, whose callback answers the requester; its use is stated by Background.HandleMessage and Background.OpenAnswersWithWindowId |
| Background.HandleMessage | chrome_extension/background.js:68-89 | `openLabelForm` overwrites `originTabId` with the sender's tab and opens one popup; `submitLabel` forwards the request unchanged to `originTabId`, relays the answer and changes no state; any other action changes nothing and has no effect; `labelFormWindowId` is never written |
| Background.HandleExternal | chrome_extension/background.js:96-109 | non-`FROM_PAGE` messages are ignored; `submitLabel` sends `{action, faLabel, subAreas}` to the sender's own tab and then removes `labelFormWindowId`; `cancelLabel` only removes `labelFormWindowId`; a `submitLabel` without a sender tab has no effect (the source fails on `sender.tab.id` first); nothing else has effects |
| Background.PopupCreatedEffects | chrome_extension/background.js:77-79 | the window-created callback; its behaviour (one reply `{success: true, windowId}` to the opener) is stated by Background.OpenAnswersWithWindowId |
| Background.TabResponseEffects | chrome_extension/background.js:83-86 | the tab-answered callback; its behaviour (the tab's answer relayed unchanged to the requester) is stated by Background.SubmitRelaysAnswer |
| Background.ExternalIgnoresOrigin | chrome_extension/background.js:99 | the external listener does not depend on `originTabId`, and anything it sends goes to the sender's tab |
| Background.Step | chrome_extension/background.js:58-109 | any event changes the state only if it is a successful `openLabelForm`, and then only `originTabId` |
| Background.RunAppend | chrome_extension/background.js:58-109 | running one more event extends the state and the effect log by that event's step |
| Background.WindowIdNeverAssigned | chrome_extension/background.js:48 | no sequence of events changes `labelFormWindowId` |
| Background.RemovalsTargetWindowId | chrome_extension/background.js:104-106 | every window removal in a run targets the `labelFormWindowId` the run started with |
| Background.RemovalsTargetNull | chrome_extension/background.js:48-106 | from the initial state every window removal is asked for `null`, because the created window's id is never stored |
| Background.OriginIsLastOpener | chrome_extension/background.js:70-71 | after any events `originTabId` is the tab of the most recent successful `openLabelForm` (last writer wins) |
| Background.SubmissionGoesToLastOpener | chrome_extension/background.js:70-83 | an internal `submitLabel` goes to the tab of the most recent `openLabelForm` |
| Background.SecondOpenerWins | chrome_extension/background.js:70-83 | with two forms opened from different tabs, the submission reaches only the second tab |
| Background.OpenAnswersWithWindowId | chrome_extension/background.js:70-79 | `openLabelForm` and its callback create one popup and reply `{success: true, windowId}` to the requester; only `originTabId` changes |
| Background.SubmitRelaysAnswer | chrome_extension/background.js:81-87 | `submitLabel` and its callback forward the request unchanged to `originTabId`, send back the tab's answer unchanged and leave the state as it was |
| Background.Coordinator.constructor | chrome_extension/background.js:48-55 | both variables start `null` and nothing has been called yet |
| Background.Coordinator.OnInstalled | chrome_extension/background.js:14-26 | the log grows by the two menu-item creations, the listener registered for installation at line 58 |
| Background.Coordinator.OnContextMenuClicked | chrome_extension/background.js:33-41 | the log grows by the click's effects and the variables are untouched |
| Background.Coordinator.OnMessage | chrome_extension/background.js:68-89 | fields and log end as the `onMessage` handler prescribes for the old state |
| Background.Coordinator.OnPopupCreated | chrome_extension/background.js:77-79 | the log grows by the reply `{success: true, windowId}` to the opener |
| Background.Coordinator.OnTabResponse | chrome_extension/background.js:83-86 | the log grows by the tab's answer, relayed unchanged |
| Background.Coordinator.OnMessageExternal | chrome_extension/background.js:96-109 | the log grows as the external handler prescribes and the variables are untouched |
| Background.Coordinator.Dispatch | chrome_extension/background.js:58-109 | each event leaves the object in the state, and with the log, that the trace semantics `Step` predicts |
| LabelFlow.SubmissionForwardedToOrigin | chrome_extension/background.js:81-85 | a submit with a non-blank label sends `{action: 'submitLabel', data}` with the trimmed label and parsed sub-areas, and the coordinator forwards it unchanged to `originTabId` |
| LabelFlow.NothingSentWithoutLabel | chrome_extension/labelForm.js:27-37 | a blank label and the cancel button both send no request |
| LabelFlow.FormClosesOnRelayedSuccess | chrome_extension/labelForm.js:14-24 | the form's own request, forwarded and answered, produces a reply to the form carrying the page's answer, and the form closes on that reply exactly when the answer reports success |
| LabelFlow.OpenThenSubmit | chrome_extension/background.js:70-85 | from start, open then created then submit: popup, `{success: true, windowId}` to the opener, and the submission forwarded to the page that asked |
| LabelFlow.OpenThenForward | chrome_extension/background.js:70-85 | from start, open then created then any `submitLabel` request: popup, `{success: true, windowId}` to the opener, and the request forwarded unchanged to the opener's tab |

## Left out

- `chrome_extension/content.js` (hover styling of page elements) is not part of this model.
- The page agent that receives `submitLabel`, saves the label and answers is not part of this model. Its answer is an input of the tab-answered event.
- Logging (`log`, `console.*`, the `Date().toISOString()` timestamp) is output only. It has no effect on behaviour.
- Every Chrome API call is an effect value only: `chrome.contextMenus.create`, `chrome.tabs.sendMessage`, `chrome.windows.create`, `chrome.windows.remove`, `chrome.runtime.getURL`, `chrome.runtime.lastError`. The model does not capture what the browser does with a call, including a `null` tab or window id. `getURL('labelForm.html')` is recorded as the page name.
- Asynchronous delivery, the order in which callbacks arrive, and the `return true` convention are left out. Each callback is its own atomic event.
- An undefined `sender.tab` or click `tab` causes a TypeError in the source. The model treats it as an event with no state change and no effect. The error report itself is not modelled.
- A message with no `action` field is represented by an action string that matches no handled action.
- DOM reads, `alert`, `window.close` and the initial `focus()` (chrome_extension/labelForm.js:40) are left out. Reads are inputs; the rest become `FormOutcome` and `Decision` values.
- LabelForm.OnSubmitResponse: `response.success` is its truthiness as a `bool`, and `lastError` holds only its `message` string. Other JavaScript values of those fields are not distinguished.
