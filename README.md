# PlatePal AI: a verified model of the menu pipeline

PlatePal AI is a browser application. A diner photographs a restaurant menu.
The photo goes to a hosted generative model, which returns one structured
record per dish. The page shows each dish as a card, and each card asks the
model for an illustration. This project models in Dafny the logic around
those calls and proves properties of the model:

- **The page** (`app/page.tsx`, and its earlier copy `App.tsx`). Module
  `HomePage`, class `HomePage.Page`. It covers:
  - the four screens HOME, PROCESSING, RESULTS and ERROR;
  - the `menuData` and `errorMessage` slots;
  - `handleMenuProcess`, split at its awaits into `BeginMenuProcess` and
    `SettleMenuProcess`;
  - `handleReset`;
  - the data-URL strip in `fileToBase64`;
  - the rule that exactly one block is rendered per screen.
- **The service** (`services/geminiService.ts`). Module `GeminiService`. It
  covers:
  - the response schema and how it relates to the `MenuItem` type;
  - the menu request and what `processMenuImage` makes of the reply (trim,
    parse, accept only a top-level array, one fixed failure message);
  - `generateMenuItemImage`: the first inline image becomes a PNG data URL,
    and every other outcome gives the placeholder URL.
- **The dish card** (`components/MenuItemCard.tsx`). Module `MenuItemCard`,
  class `MenuItemCard.Card`. It covers:
  - the spice table and the chili indicator;
  - the rules for which detail sections are shown;
  - the expand toggle;
  - the image effect, whose late result is dropped once the card's cleanup
    has run.
- **The upload control** (`components/MenuUploader.tsx`). Module
  `MenuUploader`, class `MenuUploader.Uploader`. It covers:
  - the `progressStages` table;
  - the guard against an empty selection;
  - the two timers of a selection. They are pending events on a
    millisecond clock that only the event loop moves. The second timer
    hands the file to the page.
- **The record** (`types.ts`). Module `Types`: `MenuItem`, the five spice
  literals, and reading a parsed JSON value as a `MenuItem`.
- **The runtime.** Module `Js` holds the parts of the JavaScript runtime the
  code relies on:
  - settled promises and thrown values;
  - the values `JSON.parse` produces, and property lookup on them;
  - `String.prototype.trim`;
  - `String.prototype.split` with a one-character separator.

The outside world enters as parameters:
- the hosted model is a function `generate` from the request the code builds
  to the way the call settles;
- `JSON.parse` is a function `parse` from text to an optional value;
- the `FileReader` outcome is the datatype `HomePage.ReadResult`.

`App.tsx` differs from `app/page.tsx` only in markup and in where its lines
sit. The same members model both:

| `App.tsx` | `app/page.tsx` |
|---|---|
| 21-26 | 25-30 |
| 28-41 | 32-47 |
| 43-54 | 49-60 |
| 62-81 | 69-90 |

The table below cites `App.tsx` for the two halves of `handleMenuProcess`,
and `app/page.tsx` for everything else.

## Model

| member | source | states |
|---|---|---|
| `Js.LookupFindsLast` | services/geminiService.ts:86 | A property lookup on a parsed object succeeds exactly when the key occurs, and then yields the value of its last occurrence, as `JSON.parse` keeps it. |
| `Js.TrimStart` | services/geminiService.ts:85 | The result is the suffix of the input that starts at its first non-white-space character, and everything dropped is white space. |
| `Js.TrimEnd` | services/geminiService.ts:85 | The result is the prefix of the input that ends at its last non-white-space character, and everything dropped is white space. |
| `Js.Trim` | services/geminiService.ts:85 | `trim()` returns a slice of the input with only white space outside it, and the slice neither starts nor ends with white space. |
| `Js.TrimIdempotent` | services/geminiService.ts:85 | Trimming twice is the same as trimming once. |
| `Js.Split` | app/page.tsx:56 | `split(",")` returns at least one piece. No piece contains the separator. Joining the pieces with the separator gives the input back. |
| `Js.SplitAfterHead` | app/page.tsx:56 | A separator-free head merges into the first piece of what follows it. |
| `Js.SplitJoin` | app/page.tsx:56 | Splitting the join of separator-free pieces gives exactly those pieces back. |
| `Types.ParseSpiceLevel` | types.ts:6 | A string reads as a spice level only if it is that level's literal. |
| `Types.SpiceLabelRoundTrip` | types.ts:6 | Every one of the five levels reads back from its own literal. |
| `Types.AsJson` | types.ts:1-9 | A `MenuItem` written as JSON is an object whose keys are the seven fields, in declaration order. |
| `Types.StringsOf` | types.ts:5-7 | A value reads as a string list exactly when it is an array of strings. The list read writes back to the same value. |
| `Types.StringsOfStringArray` | types.ts:5-7 | A string list written as JSON reads back unchanged. |
| `Types.LookupDistinct` | types.ts:1-9 | In an object with distinct keys, looking up the i-th key finds the i-th value. |
| `Types.ItemOfAsJson` | types.ts:1-9 | Any `MenuItem` written as JSON reads back as the same item. |
| `GeminiService.SchemaMatchesMenuItem` | services/geminiService.ts:8-51 | The schema declares the seven `MenuItem` fields in order and requires all of them. Its spice enumeration is exactly the five literals of the type, in order. A string is in the enumeration exactly when it reads as a spice level. |
| `GeminiService.StringArrayConforms` | services/geminiService.ts:25-31 | A value conforms to "array of string" exactly when it reads as a string list. |
| `GeminiService.ConformsIffMenuItem` | services/geminiService.ts:8-51 | A parsed value conforms to the item schema if and only if it reads as a `MenuItem`. |
| `GeminiService.MenuItemShapeConforms` | services/geminiService.ts:12-49 | A value that reads as a `MenuItem` satisfies every declared property and every required key. |
| `GeminiService.ConformingHasMenuItemShape` | services/geminiService.ts:12-49 | A value that conforms to the item schema has all seven fields with the declared types. |
| `GeminiService.PresentAndConforming` | services/geminiService.ts:49 | In a conforming object, each declared property is present, because it is required, and holds a conforming value. |
| `GeminiService.MenuItemConforms` | services/geminiService.ts:8-51 | Every `MenuItem` written as JSON is an instance of the item schema. |
| `GeminiService.MenuRequestFor` | services/geminiService.ts:53-83 | The menu request names the text model and sends the image part, then the fixed instruction. It asks for JSON following the menu schema. |
| `GeminiService.ProcessMenuImage` | services/geminiService.ts:53-97 | The one request sent carries the image part and the fixed instruction. The caller gets the elements of the trimmed reply text, in order, exactly when the call resolved with text that parses to an array. Every other outcome is the one fixed failure message. |
| `GeminiService.NormalizeMenuReply` | services/geminiService.ts:85-96 | Success holds if and only if the call resolved, its text is present, and the trimmed text parses to an array. The result is then that array's elements, unchanged and in order. Every failure is the one fixed message. |
| `GeminiService.ArrayReplyAccepted` | services/geminiService.ts:85-92 | An array reply of any length is accepted, including the empty array, and is returned as is. |
| `GeminiService.NonArrayReplyRejected` | services/geminiService.ts:88-90 | A reply that parses to an object, a string, a number, a boolean or null is rejected with the fixed message. |
| `GeminiService.RejectedCallHidesItsMessage` | services/geminiService.ts:93-96 | Whatever a rejected call threw, the caller sees only the fixed message. |
| `GeminiService.SurroundingWhiteSpaceIgnored` | services/geminiService.ts:85 | White space around the reply text does not change the outcome. |
| `GeminiService.ImagePrompt` | services/geminiService.ts:102 | The illustration prompt is the fixed sentence with the item name inserted verbatim between the double quotes. |
| `GeminiService.ImagePromptInjective` | services/geminiService.ts:102 | Different item names give different prompts. |
| `GeminiService.ImageRequestFor` | services/geminiService.ts:104-112 | The illustration request names the image model, sends only the prompt, and asks for the image modality. |
| `GeminiService.FirstInlineData` | services/geminiService.ts:114-119 | The result is `None` exactly when no part carries inline data. Otherwise it is the inline data of a part that is preceded only by parts without inline data. |
| `GeminiService.FirstInlineDataIgnoresLaterParts` | services/geminiService.ts:114-118 | Parts after the first one with inline data do not affect the result. |
| `GeminiService.ImageUrlForIsDataOrPlaceholder` | services/geminiService.ts:114-125 | The URL is always either the placeholder or a PNG data URL, so the function never fails. It differs from the placeholder exactly when the call resolved with parts and one of them carried inline data. |
| `GeminiService.GenerateMenuItemImage` | services/geminiService.ts:99-126 | The loop over the first candidate's parts, with its early return and its fallback, returns just the URL characterised above. |
| `HomePage.StripDataUrlPrefix` | app/page.tsx:54-56 | `result.split(",")[1]` is undefined exactly when the reader's result has no comma. When it is defined, it holds no comma. |
| `HomePage.SplitShape` | app/page.tsx:56 | A string is its first piece, or its first two pieces joined by a comma followed by the rest. |
| `HomePage.StripDataUrlPrefixShape` | app/page.tsx:56 | A defined payload is the text right after the first comma, up to the end or to the next comma. |
| `HomePage.CommaLayout` | app/page.tsx:54-56 | In `<header>,<payload><rest>`, with a comma-free header and a rest that is empty or starts with a comma, the payload sits right after the first comma. |
| `HomePage.StripHeaderAndPayload` | app/page.tsx:54-56 | For a reader result `<header>,<payload>` with no comma in either part, the payload comes back exactly. |
| `HomePage.FileToBase64` | app/page.tsx:49-60 | A loaded file resolves with the stripped payload. A failed read rejects with the reader's event, which is not an `Error`. |
| `HomePage.MenuProcessOutcome` | app/page.tsx:32-47 | From any session, handling a photo ends on one of two screens. RESULTS holds the interpreter's list unchanged and no message; that happens exactly when the read and the call both succeed. Otherwise ERROR keeps the old list and shows the thrown error's message, or the fallback for a value that is not an `Error`. |
| `HomePage.ReadFailureShowsFallback` | app/page.tsx:58 | A failed file read always ends on ERROR with the fallback message and the old list. |
| `HomePage.WithGeminiService` | app/page.tsx:36-46 | With the real `processMenuImage` behind the page, RESULTS is reached exactly when the file was read and the trimmed reply parses to an array, and the list is that array. Otherwise ERROR shows one of two fixed, non-empty messages: the fallback for a read failure, the service's message for anything else. |
| `HomePage.RenderedViews` | app/page.tsx:69-90 | Exactly one block is rendered. The uploader appears only on HOME. The list appears only on RESULTS and shows `menuData`. The message appears only on ERROR. |
| `HomePage.Page.constructor` | app/page.tsx:16-18 | The page starts on HOME with an empty list and no message. |
| `HomePage.Page.HandleReset` | app/page.tsx:25-30 | From any state, `handleReset` returns to the initial session. The new state does not depend on the old one, so resetting twice equals resetting once. |
| `HomePage.Page.BeginMenuProcess` | App.tsx:29-30 | Before the first await, the screen is PROCESSING, the message is cleared, and the list is unchanged. |
| `HomePage.Page.SettleMenuProcess` | App.tsx:31-40 | After the awaits, the `try` branch when the read and the call succeed and the `catch` branch otherwise, the session is the one `MenuProcessOutcome` characterises. |
| `HomePage.Page.HandleMenuProcess` | app/page.tsx:32-47 | The whole handler takes the page to the state `Settled(Begun(old))`. |
| `HomePage.Page.Views` | app/page.tsx:62-90 | The page renders exactly one block. It is the uploader exactly on HOME, the analysing caption exactly on PROCESSING, the list of the page's `menuData` exactly on RESULTS, and the panel with the page's `errorMessage` exactly on ERROR. |
| `MenuItemCard.SpiceValue` | components/MenuItemCard.tsx:10 | `spiceLevels[level] ?? 0` is at most `MAX_SPICE`, and is 0 for any string outside the table. |
| `MenuItemCard.SpiceTableIsTheOrdinal` | components/MenuItemCard.tsx:6-7 | The table's keys are exactly the five literals, and the i-th literal maps to i. The values strictly increase in literal order and end at `MAX_SPICE = 4`. |
| `MenuItemCard.ChiliRow` | components/MenuItemCard.tsx:15-16 | The row holds four icons: `levelValue` red ones and then `4 - levelValue` grey ones. |
| `MenuItemCard.RedCountRepeat` | components/MenuItemCard.tsx:15-16 | A run of n icons adds n to the red count if they are red, and nothing otherwise. |
| `MenuItemCard.SpiceLevelIndicatorShape` | components/MenuItemCard.tsx:9-22 | The indicator renders nothing exactly when the level's value is 0, which includes "None" and every unknown string. Otherwise it renders four icons, of which exactly the level's value are red. |
| `MenuItemCard.DietaryTag` | components/MenuItemCard.tsx:110 | A tag starts with the check mark and a space, and the rest of it is the note, so the note can be read back from the tag. |
| `MenuItemCard.DietaryTags` | components/MenuItemCard.tsx:108-112 | There is one tag per note, in the same order. |
| `MenuItemCard.DetailsOf` | components/MenuItemCard.tsx:94-127 | The description is always shown. The pairing block appears exactly for a non-empty suggestion. The dietary section appears exactly for a non-empty note list, with one tag per note. The allergen section appears exactly for a non-empty allergen list, showing the allergens as they are. |
| `MenuItemCard.Card.Mount` | components/MenuItemCard.tsx:30-45 | A new card is collapsed, shows the spinner, is mounted, and has one illustration call outstanding. |
| `MenuItemCard.Card.Click` | components/MenuItemCard.tsx:57 | A click flips `isExpanded`. |
| `MenuItemCard.Card.Unmount` | components/MenuItemCard.tsx:47-49 | The effect's cleanup clears the mounted flag. |
| `MenuItemCard.Card.ImageResolved` | components/MenuItemCard.tsx:38-42 | The outstanding call settles, once. On a mounted card, the resolved URL is shown and loading stops. On an unmounted card, nothing it shows changes. |
| `MenuItemCard.Card.ResolveWith` | components/MenuItemCard.tsx:36-43 | The outstanding call settles, once. A mounted card ends up showing what `generateMenuItemImage` returns for its translated name. An unmounted one is left as it was. |
| `MenuItemCard.Card.View` | components/MenuItemCard.tsx:60-94 | The card shows the spinner while loading, and otherwise the image with the translated name as its alt text. The details are open exactly when the card is expanded. The spice indicator is that of the item's level. |
| `MenuItemCard.ClickTwice` | components/MenuItemCard.tsx:30 | Two clicks restore `isExpanded`, and no other field of the card changes. |
| `MenuItemCard.LateImageIsDropped` | components/MenuItemCard.tsx:34-50 | After cleanup, a late illustration changes nothing the card shows. |
| `MenuUploader.ProgressStagesAdvance` | components/MenuUploader.tsx:10-15 | The progress values of idle, uploading, processing and complete are 0, 35, 72 and 100. They strictly increase from idle through complete and stay within 0..100. The four stages have distinct labels. |
| `MenuUploader.StatusOf` | components/MenuUploader.tsx:67-87 | The panel shows the current stage's percentage and label. The "Selected file" line appears exactly when a file name is recorded, and shows that name. |
| `MenuUploader.PendingFilesAppend` | components/MenuUploader.tsx:29-32 | The files still to be handed over by two timer lists add up, in order. |
| `MenuUploader.PendingFilesCons` | components/MenuUploader.tsx:29-32 | A timer in front of a list adds its own file, if it completes one. |
| `MenuUploader.PendingFilesNone` | components/MenuUploader.tsx:28 | Timers that only move the display to processing hand nothing over. |
| `MenuUploader.PendingFilesRemove` | components/MenuUploader.tsx:29-32 | Removing a fired timer removes its own file, if it has one, and keeps the other pending files in order. |
| `MenuUploader.NextCompletionIsFirstPending` | components/MenuUploader.tsx:28-32 | When the timer the event loop runs next is a completing one, its file is the first still pending. |
| `MenuUploader.SchedulingKeepsConsistent` | components/MenuUploader.tsx:28-32 | Scheduling a selection's two timers keeps the invariant, with that selection's file added at the end of the selected files. |
| `MenuUploader.SchedulingKeepsTiming` | components/MenuUploader.tsx:28-29 | After a selection's two timers are appended, no timer is overdue, completing timers are due within 2200 ms, and completing timers stay in scheduling order. |
| `MenuUploader.SchedulingKeepsFiles` | components/MenuUploader.tsx:28-32 | After a selection's two timers are appended, the files handed over followed by those pending are the selected files with the new file at the end. |
| `MenuUploader.FiringKeepsConsistent` | components/MenuUploader.tsx:28-32 | Running the next timer keeps the invariant at its due time. A completing timer hands over exactly the first selected file not yet handed over. |
| `MenuUploader.FiringKeepsTiming` | components/MenuUploader.tsx:28-32 | After the next timer leaves the list, no timer is overdue at its due time, completing timers are due within 2200 ms of it, and they stay in scheduling order. |
| `MenuUploader.FiringKeepsFiles` | components/MenuUploader.tsx:29-32 | After the next timer fires, the files handed over followed by those pending are still the selected files, and a completing timer hands over the next selected file. |
| `MenuUploader.Uploader.View` | components/MenuUploader.tsx:76-87 | The panel shows the percentage and label of the current stage. The "Selected file" line appears exactly when a file name is recorded, and shows that name. |
| `MenuUploader.Uploader.constructor` | components/MenuUploader.tsx:19-20 | The control starts idle with no file name, no timers, and no file selected or handed over. |
| `MenuUploader.Uploader.HandleFileSelect` | components/MenuUploader.tsx:22-33 | An empty selection changes nothing. Otherwise, the first file's name is shown, the stage is uploading, the file joins the selected files, and two timers are scheduled from now: processing at +900 ms and complete-with-this-file at +2200 ms. The invariant is kept: the files handed over, followed by those still pending, are exactly the selected files, in order. |
| `MenuUploader.Uploader.Wait` | components/MenuUploader.tsx:28-29 | Time passes only up to the next due timer, and the invariant is kept. |
| `MenuUploader.Uploader.FireTimer` | components/MenuUploader.tsx:28-32 | The timer the event loop runs next fires at its due time, and leaves the list. The first kind sets processing and hands nothing over. The second kind sets complete and calls `onProcess` with its file, which is the first selected file not yet handed over. The invariant is kept. |
| `MenuUploader.SelectAndReachProcessing` | components/MenuUploader.tsx:23-28 | With nothing pending, 900 ms after a selection the stage is processing and the name shown is the file's. Nothing has been handed over, and only this selection's completing timer, due at +2200 ms, is left. |
| `MenuUploader.SelectAndWait` | components/MenuUploader.tsx:23-32 | With nothing pending, 2200 ms after a selection the stage is complete, no timer is left, and the file has been handed to the page exactly once. |
| `MenuUploader.SelectTwice` | components/MenuUploader.tsx:22-33 | Two selections made at the same instant hand both files to the page, in order. The name shown is the second file's. |
| `MenuUploader.FireBothProcessingTimers` | components/MenuUploader.tsx:28 | For back-to-back selections, both 900 ms timers fire before either 2200 ms timer, and neither calls `onProcess`. |
| `MenuUploader.FireBothCompleteTimers` | components/MenuUploader.tsx:29-32 | The two 2200 ms timers then fire in scheduling order, each calling `onProcess` with its own file. |

## Notes on the code's behaviour

- **Elements are not checked.** `processMenuImage` checks only that the top
  level of the reply is an array (services/geminiService.ts:88-92). Its
  elements reach the page unchecked, so the page's list is `seq<Json>`, not
  `seq<MenuItem>`. `GeminiService.ConformsIffMenuItem` says which elements
  the schema would admit, but no code enforces it.
- **Selections are not exclusive.** Each selection schedules its own
  `onProcess` call (components/MenuUploader.tsx:28-32), and nothing cancels
  the timers. The upload control's invariant holds for every interleaving
  of selections, waits and timer firings: the files handed to the page,
  followed by those still pending, are exactly the selected files, in
  order. `MenuUploader.SelectTwice` works out two selections made at the
  same instant. When the second selection comes d ms after the first,
  the steps interleave differently; for d = 1300, say, the second
  selection's processing timer and the first selection's completing timer
  fall due at the same time.

## Left out

- The hosted model, `FileReader` and `JSON.parse` are parameters of the
  model, not code in it. Each is a function from its input to its outcome.
  The SDK's transport, authentication and retry behaviour are not modelled.
- The API-key check at module load (services/geminiService.ts:4-6) is
  environment configuration.
- Logging (`console.error`), scrolling (`scrollIntoView`, `window.scrollTo`,
  `handleStart`) and the "browse files" button that opens the file picker
  have no logical content.
- Animations, CSS classes and the per-card entry delay (`index * 0.1`) are
  presentation. So are the static components (`Hero`, `Header`, `Footer`,
  `Loader`, `layout.tsx`, `tailwind.config.ts`) and `ResultsDisplay`, which
  only maps items to cards and pluralises a count.
- `HomePage.Page.SettleMenuProcess`: the two awaits are modelled as one step
  after `BeginMenuProcess`. Other events may still run between the two
  methods, but not between the two awaits.
- `MenuItemCard.Card.View`: the card is modelled on a typed `MenuItem`, so
  an element of the page's list that lacks a field or has a field of the
  wrong kind is not modelled. In the browser:
  - a missing `dietaryNotes` or `allergens` makes rendering throw
    (components/MenuItemCard.tsx:104, 116);
  - a missing `originalName` or `description` renders as empty text, and a
    missing `pairingSuggestion` hides the pairing block;
  - a missing `translatedName` asks for an illustration of "undefined"
    (components/MenuItemCard.tsx:38, services/geminiService.ts:102);
  - a `spiceLevel` other than the five literals renders no indicator
    (components/MenuItemCard.tsx:10-11). The typed `MenuItem` cannot hold
    such a value.
- `MenuItemCard.SpiceValue`: a key inherited from `Object.prototype`, such
  as "toString", would make `spiceLevels[level]` return a function. The
  model treats every string outside the five literals as 0.
- `MenuItemCard.Card.Mount`: a card's item is a constant of the model, but
  a mounted card can receive a new item. Two selections give two
  overlapping `handleMenuProcess` runs (components/MenuUploader.tsx:28-32);
  when the second settles while the page is already on RESULTS, it replaces
  `menuData` (app/page.tsx:38-39). The cards are keyed by index
  (components/ResultsDisplay.tsx:42), so each mounted card keeps its state
  and gets the new item at its index. The model does not capture:
  - the card showing the new item's fields;
  - `isExpanded` carried over from the old item;
  - for a changed `translatedName`, the effect's cleanup, which drops the
    old call's late result, and the second illustration call it starts
    (components/MenuItemCard.tsx:47-50), with the spinner shown again until
    that call settles.
- `GeminiService.GenerateMenuItemImage`: a part whose `inlineData` lacks
  `data` would give the URL `data:image/png;base64,undefined`. The model
  gives every inline-data record a string payload.
- `MenuUploader.Uploader.FireTimer`: a timer fires exactly at its due time.
  The delay a busy event loop adds is not modelled, and it does not change
  the firing order.
- Unmounting the upload control when the page leaves HOME is not modelled.
  React ignores the state updates of an unmounted component, but the pending
  timers still call `onProcess`.
- JSON numbers are reals. Their textual form and precision do not matter to
  the code.
- Strings are sequences of Unicode characters, not UTF-16 code units.
  `trim` and `split(",")` treat both the same way for the characters
  involved.
