# NutriLens client core, modelled in Dafny

NutriLens is a single-page browser client. The user uploads a photo of a meal. The client sends it to a
remote vision model with an API key and shows the nutrition breakdown that comes back. It keeps the
last twenty analyses in local storage, and it reports outcomes through a small toast bus. This project
models the client's logic and proves properties of it:

- `Types` (`types.dfy`): the reply union. A reply is a record of optional keys, and `IsAnalysisError`
  is exactly the test "an `error` key is present". `AnalysisResult` and `AnalysisError` are the two
  subset types it carves out, and a `HistoryEntry` can only hold an `AnalysisResult`.
- `History` (`history.dfy`): the history store. The class `HistoryStore` holds the local-storage slot
  (missing, blank, a saved list, or unreadable text). Its four operations describe their new slot
  exactly. The lemmas cover the cap of 20, deletion by id, and the "twenty most recent, newest first"
  property of repeated saves.
- `Gemini` (`gemini.dfy`):
  - key resolution: a build-time key, else the stored one;
  - the `KeyStore` class for the credential slot;
  - the media type and comma split of the request payload;
  - everything `analyzeImage` does once the HTTP response is in: status classification, the
    missing-text failure, fence cleaning, parsing, and the parse failure.
- `Uploader` (`uploader.dfy`): upload validation (type allow-list, inclusive 10 MiB bound) and the
  `ImageUploader` class with its `preview`, `error` and `dragActive` state.
- `Orchestrator` (`app.dfy`): the `App` class with the six state fields that the handlers update
  (`selectedFile`, `preview`, `isAnalyzing`, `result`, `apiKey`, `showKeyModal`). It also keeps a
  ghost log of the analysis requests issued. `runAnalysis` is specified against three functions
  that give the result, the toast and the history write each outcome leads to.
- `KeyModal` (`key_modal.dfy`): the key dialog's input, its prefill on opening, and `handleSave`.
- `Toasts` (`toast.dfy`): the module-level listener set, `emit` and the `toast` API, the container's
  append and `remove`, and the icon choice.
- `Theme` (`theme.dfy`): the six colour themes, the load effect, `applyTheme` and `changeTheme`.
- `ViteConfig` (`vite_config.dfy`): the `assetFileNames` classifier of the build configuration.
- `Wrappers`, `Text` and `Lists` are helpers:
  - `Option`/`Result`;
  - JavaScript `trim` over the ECMAScript white-space set, and ASCII case-insensitive matching;
  - filter, truncate and reverse on sequences.

Outside inputs are parameters. This covers the network response, `JSON.parse` (a partial function:
`None` when it throws), whether a storage write or remove succeeds, `crypto.randomUUID`, `Date.now`,
the object URL, the data URL that `FileReader` produces, and how the awaited analysis settled.
Callbacks handed to a component (`onImageSelected`, `onKeySaved`, `onClose`) are returned as values
instead of being called.

`fileToBase64` takes `split(",")[1]`, and the model follows that code exactly. It is the text between
the first comma and the next one (or the end), which is not always "everything after the first
comma". The two readings agree for the single-comma URLs that `readAsDataURL` produces
(`Base64OfDataUrl`).

## Model

| member | source | states |
|---|---|---|
| Types.IsAnalysisError | src/types/index.ts:34-36 | a reply is an error exactly when its key set contains `error` |
| Types.ErrorKeyWins | src/types/index.ts:34-36 | presence alone decides: a reply with an `error` key is an error even when all four result keys are present |
| Types.ResultKeysWithoutErrorIsResult | src/types/index.ts:21-36 | a reply with `foods`, `total_nutrition`, `confidence_score` and `analysis_summary` and no `error` key is classified as a result |
| Types.FoodItemExtendsTotals | src/types/index.ts:3-19 | a food item is exactly a totals record plus a name and a portion: taking the numbers out and putting them back, in either order, loses and adds nothing |
| History.Listed | src/services/history.ts:9-14 | a missing, blank or unreadable slot reads as the empty list; a saved list reads as itself |
| History.Prepended | src/services/history.ts:27-31 | `unshift` then `slice(0, 20)`: the new entry first, then the old entries in order, min(old+1, 20) long |
| History.Without | src/services/history.ts:44 | no longer than the list; every entry kept is from the list and has another id; every entry with another id is kept |
| History.PrependedShape | src/services/history.ts:28-31 | after prepend-and-cap, the new entry is first, the length is min(old+1, 20), and the rest is the newest part of the old list |
| History.PrependedWellFormed | src/services/history.ts:20-31 | prepending an entry with a fresh id to a list with unique ids gives a list with unique ids and at most 20 entries |
| History.WithoutRemovesExactly | src/services/history.ts:44 | filtering by id leaves no entry with that id, keeps every other entry, and adds nothing |
| History.WithoutKeepsOrder | src/services/history.ts:44 | filtering distributes over concatenation, so the entries that stay keep their relative order |
| History.WithoutAbsentId | src/services/history.ts:44 | deleting an id that no entry has leaves the list unchanged |
| History.WithoutTwice | src/services/history.ts:44 | deleting the same id twice is the same as deleting it once |
| History.UniqueIdsPrefix | src/services/history.ts:31 | cutting a list with unique ids to a prefix keeps the ids unique |
| History.UniqueIdsWithout | src/services/history.ts:44 | deleting by id keeps the ids unique |
| History.SavedAllIsCappedReverse | src/services/history.ts:27-33 | saving entries one after another leaves the saved entries newest first, then the old list, capped at 20 |
| History.KeepsMostRecent | src/services/history.ts:28-31 | after at least 20 saves the store holds exactly the 20 most recent entries, in reverse order of saving |
| History.HistoryStore.constructor | src/services/history.ts:3 | the store starts on a given well-formed slot |
| History.HistoryStore.GetHistory | src/services/history.ts:7-16 | returns the current list, `[]` for a missing, blank or unreadable slot, and changes nothing |
| History.HistoryStore.SaveToHistory | src/services/history.ts:19-39 | the returned entry carries the given id, time, image and result; a successful write makes the slot the capped list with the entry at its head; a failed write leaves the slot as it was and the entry is still returned |
| History.HistoryStore.DeleteHistoryEntry | src/services/history.ts:42-49 | a successful write stores the list without that id; a failed one changes nothing; the store stays well formed |
| History.HistoryStore.ClearHistory | src/services/history.ts:52-58 | after a successful removal the slot is missing and the list reads as empty; a failed removal changes nothing |
| Lists.Filter | src/services/history.ts:44 | the filtered list is no longer than the input, holds only kept elements of the input, and holds every kept element |
| Text.Trim | src/services/gemini.ts:10 | `trim()` gives a string with no white space at either end, no longer than its input |
| Text.TrimStartIsSuffix | src/services/gemini.ts:122-123 | what the leading-white-space removal keeps is a suffix, and what it drops is all white space |
| Text.TrimEndIsPrefix | src/services/gemini.ts:124 | what the trailing-white-space removal keeps is a prefix, and what it drops is all white space |
| Text.TrimEmptyIffAllSpace | src/components/ui/ApiKeyModal.tsx:25-26 | a string trims to the empty string exactly when it is all white space |
| Gemini.EnvApiKey | src/services/gemini.ts:8-11 | a build-time key exists exactly when the value is present and not all white space, and it is the trimmed, non-empty value |
| Gemini.ResolveKey | src/services/gemini.ts:13-15 | `getStoredApiKey` (`KeyStore.GetStoredApiKey` applies it to the store's fields): the key is the stored value or the build-time key, and it is absent only when both are |
| Gemini.EnvKeyWins | src/services/gemini.ts:8-15 | a build-time key that is not blank resolves trimmed and wins over the stored value |
| Gemini.BlankEnvFallsBack | src/services/gemini.ts:8-15 | an absent or blank build-time key counts as none, and the stored value is what resolves |
| Gemini.IsEnvApiKey | src/services/gemini.ts:18-20 | true exactly when there is a build-time key that is not all white space |
| Gemini.StoredKeyResolves | src/services/gemini.ts:13-15 | with no build-time key, a stored key is the key that resolves |
| Gemini.KeyStore.constructor | src/services/gemini.ts:4-15 | the store starts on the given build-time value and slot |
| Gemini.KeyStore.StoreApiKey | src/services/gemini.ts:22-28 | a successful write stores the key as given, and then it resolves when there is no build-time key; a failed write changes nothing and throws nothing |
| Gemini.KeyStore.ClearApiKey | src/services/gemini.ts:30-36 | a successful removal empties the slot, so only a build-time key can still resolve; a failed removal changes nothing |
| Gemini.RequestPart | src/services/gemini.ts:56-62 | the media type sent is never empty and is the file's own when it has one, `"image/jpeg"` otherwise; the data is absent exactly when the data URL has no comma, and never contains one |
| Gemini.MediaType | src/services/gemini.ts:61 | the file's own type when it is not empty, otherwise `"image/jpeg"` |
| Gemini.AfterFirstComma | src/services/gemini.ts:46 | absent exactly when there is no comma; otherwise the suffix after a comma that has no comma before it |
| Gemini.UpToComma | src/services/gemini.ts:46 | the longest comma-free prefix |
| Gemini.Base64Part | src/services/gemini.ts:46 | `split(",")[1]`: absent exactly when the data URL has no comma, and never containing a comma |
| Gemini.Base64OfDataUrl | src/services/gemini.ts:44-47 | for `header,payload` with one comma, the payload sent is exactly `payload` |
| Gemini.DigitChar | src/services/gemini.ts:107 | the digit character denoting a number below ten |
| Gemini.DecimalString | src/services/gemini.ts:107 | the interpolated status is a non-empty string of decimal digits with no leading zero, as a number prints |
| Gemini.DecimalRoundTrip | src/services/gemini.ts:107 | the digits in the message read back as the status they came from |
| Gemini.StatusMessage | src/services/gemini.ts:97-107 | the message starts with "API error (" exactly when the status is not 400, 403 or 429 |
| Gemini.GenericStatusMessage | src/services/gemini.ts:92-107 | any status other than 400, 403 and 429 gives "API error (<status>): " followed by exactly the first 200 characters of the body, or the whole body when it is shorter |
| Gemini.FailureMessagesDistinct | src/services/gemini.ts:97-132 | 400, 403 and 429 each have their own message, different from any other status's, from the missing-text message and from the parse-failure message |
| Gemini.StripJsonOpening | src/services/gemini.ts:122 | text that does not start with a fence is untouched; otherwise what is left is no longer and does not start with white space |
| Gemini.StripOpening | src/services/gemini.ts:123 | text that does not start with a fence is untouched; otherwise what is left is no longer and does not start with white space |
| Gemini.StripClosing | src/services/gemini.ts:124 | text that does not end with a fence is untouched; otherwise what is left is no longer and does not end with white space |
| Gemini.CleanFences | src/services/gemini.ts:121-125 | the cleaned text has no white space at either end |
| Gemini.UnfencedIsTrimmed | src/services/gemini.ts:121-125 | text with no fence at either end is only trimmed |
| Gemini.StripJsonOpeningOfWrapped | src/services/gemini.ts:122 | an opening fence tagged `json` in any letter case goes, together with the line break after it |
| Gemini.StripOpeningOfBodyAndFence | src/services/gemini.ts:123 | the plain-fence step leaves text alone when it does not start with a fence |
| Gemini.StripClosingOfBodyAndFence | src/services/gemini.ts:124 | the closing fence goes, together with the white space before it |
| Gemini.AnyCaseTagCleansToBody | src/services/gemini.ts:121-125 | a trimmed, unfenced body wrapped in a fence tagged `json` in any letter case cleans to the body itself |
| Gemini.PlainFenceCleansToBody | src/services/gemini.ts:121-125 | a trimmed, unfenced body wrapped in an untagged fence cleans to the body itself: the `json` step leaves it alone, and the plain-fence step removes the opening fence and the line break after it |
| Gemini.FencedCleansToBody | src/services/gemini.ts:121-125 | a trimmed, unfenced body (the empty one included) wrapped in a `json` fence cleans to the body itself, which is also what the bare body cleans to |
| Gemini.ReadReply | src/services/gemini.ts:92-133 | succeeds exactly for an OK response (`IsOk`: `response.ok`, a status from 200 to 299) with non-empty text whose cleaned form parses, and then with the parsed value; a response that is not OK fails with its status message |
| Gemini.NotOkIgnoresReply | src/services/gemini.ts:92-108 | a response that is not OK fails, and the outcome depends only on the status and body, never on the reply text or the parser |
| Gemini.MissingTextIsNoResponse | src/services/gemini.ts:113-118 | an OK response with missing or empty text fails with the "no response" message, which is not the parse-failure message |
| Gemini.ParsedPassesThrough | src/services/gemini.ts:127-133 | text that parses is returned exactly as parsed, with no field checks; text that does not parse is the "unexpected format" failure |
| Gemini.SameCleanedTextReadsAlike | src/services/gemini.ts:121-129 | two replies whose texts clean to the same string read alike |
| Gemini.FencedReplyReadsLikeBare | src/services/gemini.ts:121-129 | a reply wrapped in a fence, tagged `json` in any letter case or untagged, gives the same outcome as the bare reply |
| Gemini.AnalyzeImage | src/services/gemini.ts:56-134 | sends the media type and the base64 field, and then returns the outcome the reply function assigns to the response: the first failing step's message, or the parsed value |
| Uploader.Accepted | src/components/upload/ImageUploader.tsx:23-34 | an accepted file has an `image/` media type and at most 10 × 1024 × 1024 bytes |
| Uploader.Rejection | src/components/upload/ImageUploader.tsx:21-36 | no message exactly when the file is accepted; a wrong type gets the type message; an allowed type over the bound gets the size message |
| Uploader.SizeBoundInclusive | src/components/upload/ImageUploader.tsx:29 | exactly 10 × 1024 × 1024 bytes passes, and one byte more is rejected as too large |
| Uploader.TypeCheckedFirst | src/components/upload/ImageUploader.tsx:23-34 | a file both of the wrong type and too large gets the type message |
| Uploader.ImageUploader.constructor | src/components/upload/ImageUploader.tsx:17-19 | no preview, no error, no drag in progress |
| Uploader.ImageUploader.Validate | src/components/upload/ImageUploader.tsx:21-36 | true exactly for an allowed type within the bound; the error is cleared and then set to the rejection message, which is present whenever the answer is false |
| Uploader.ImageUploader.HandleFile | src/components/upload/ImageUploader.tsx:38-46 | an accepted file becomes the preview and is passed on with its URL; a rejected one leaves the preview and passes nothing on |
| Uploader.ImageUploader.HandleDrop | src/components/upload/ImageUploader.tsx:48-56 | ends the drag and handles only the first dropped file; with no file nothing else changes |
| Uploader.ImageUploader.HandleChange | src/components/upload/ImageUploader.tsx:58-64 | handles only the first chosen file; with no file nothing changes |
| Uploader.ImageUploader.Clear | src/components/upload/ImageUploader.tsx:66-70 | both the preview and the error become null |
| Orchestrator.SettledResult | src/App.tsx:54-76 | a result is kept only after a reply, and it is that reply; a throw keeps none |
| Orchestrator.SettledToast | src/App.tsx:54-76 | the toast has the given id and is never an info toast; it is a success toast exactly for a reply without an `error` key |
| Orchestrator.ResultKeptIffSuccessToast | src/App.tsx:54-76 | a result is kept exactly for a result-shaped reply, and it is that reply; the success toast is shown exactly then, and every other outcome shows an error toast |
| Orchestrator.ErrorReplyWritesNothing | src/App.tsx:56-58 | an error-shaped reply leaves no result, writes no history and shows its `error` text |
| Orchestrator.ThrownShowsMessage | src/App.tsx:72-76 | a throw leaves no result, writes no history and shows the error's message, or "Something went wrong." when it has none |
| Orchestrator.ClientFailureToast | src/App.tsx:72-76 | a failure of the analysis client reaches the user as an error toast with the client's own message |
| Orchestrator.App.constructor | src/App.tsx:18-28 | all state empty and `isAnalyzing` false, and after the mount effect `apiKey` is the resolved key |
| Orchestrator.App.BeginAnalysis | src/App.tsx:50-54 | `isAnalyzing` on, the result cleared, and one request issued for this file and key |
| Orchestrator.App.SettleAnalysis | src/App.tsx:54-79 | `isAnalyzing` ends false; the result is the reply when it is result-shaped, cleared when it is error-shaped, untouched after a throw; exactly one toast reaches every container; the history slot changes only for a result-shaped reply with a readable image and a successful write |
| Orchestrator.App.RunAnalysis | src/App.tsx:49-80 | exactly one request, `isAnalyzing` false at the end, and result, toast and history as the outcome decides |
| Orchestrator.App.HandleImageSelected | src/App.tsx:30-47 | records the file and preview; with no key it opens the key dialog, issues no request, leaves the result cleared and touches neither history nor toasts; otherwise it runs the analysis with the resolved key |
| Orchestrator.App.HandleKeySaved | src/App.tsx:82-93 | sets the key and shows "API key saved!"; with a file selected it then runs the analysis with that key, and the two toasts arrive in that order; with no file nothing else happens |
| Orchestrator.App.HandleRetry | src/App.tsx:96-100 | runs the analysis only when a file is selected and the key is not empty; otherwise nothing changes |
| Orchestrator.App.HandleReset | src/App.tsx:103-107 | file, preview and result become null and nothing else changes |
| Orchestrator.App.HandleHistorySelect | src/App.tsx:110-115 | the past result is shown, file and preview are cleared, and the "Loaded from history" info toast is delivered |
| Orchestrator.App.OpenKeyModal | src/App.tsx:119 | the key dialog is shown |
| Orchestrator.App.CloseKeyModal | src/App.tsx:167 | the key dialog is hidden |
| KeyModal.SaveEnabledIffNotBlank | src/components/ui/ApiKeyModal.tsx:125 | `SaveDisabled` (`disabled={!key.trim()}`) is false, so Save is enabled, exactly when the input has a character that is not white space |
| KeyModal.ApiKeyModal.constructor | src/components/ui/ApiKeyModal.tsx:12 | the input starts empty |
| KeyModal.ApiKeyModal.Input | src/components/ui/ApiKeyModal.tsx:85 | the input holds what was typed |
| KeyModal.ApiKeyModal.OpenChanged | src/components/ui/ApiKeyModal.tsx:15-20 | on opening, a resolved key that is not empty replaces the input; otherwise the input is kept |
| KeyModal.ApiKeyModal.HandleSave | src/components/ui/ApiKeyModal.tsx:24-30 | blank input stores nothing and calls nothing; otherwise the trimmed, non-blank input is stored (when the write succeeds) and then passed on, and then the dialog closes, in that order and with the same string |
| Toasts.IconFor | src/components/ui/Toast.tsx:66-71 | the check icon exactly for success, the alert icon exactly for error |
| Toasts.WithoutToast | src/components/ui/Toast.tsx:41-43 | no longer than the list; every toast kept is from the list and has another id; every toast with another id is kept |
| Toasts.IconsTellTypesApart | src/components/ui/Toast.tsx:66-71 | different toast types get different icons |
| Toasts.WithoutToastExactly | src/components/ui/Toast.tsx:41-43 | `remove` leaves no toast with the id, keeps every other toast, and keeps their order |
| Toasts.WithoutAbsentToast | src/components/ui/Toast.tsx:41-43 | removing an id no toast has leaves the list unchanged |
| Toasts.ToastContainer.constructor | src/components/ui/Toast.tsx:32 | the list starts empty |
| Toasts.ToastContainer.Append | src/components/ui/Toast.tsx:35-36 | the toast is added at the end and the earlier toasts keep their order |
| Toasts.ToastContainer.Remove | src/components/ui/Toast.tsx:41-43 | the list becomes the old list without the toasts that have the id |
| Toasts.ToastBus.constructor | src/components/ui/Toast.tsx:15 | no listeners |
| Toasts.ToastBus.Subscribe | src/components/ui/Toast.tsx:37 | the container is added to the listeners |
| Toasts.ToastBus.Unsubscribe | src/components/ui/Toast.tsx:38 | the container is no longer a listener |
| Toasts.ToastBus.Emit | src/components/ui/Toast.tsx:17-20 | one toast with the given type, message and id reaches every registered container; with no listeners, or for a container that unsubscribed, nothing changes |
| Toasts.ToastBus.ToastSuccess | src/components/ui/Toast.tsx:23 | emits a success toast with the message |
| Toasts.ToastBus.ToastError | src/components/ui/Toast.tsx:24 | emits an error toast with the message |
| Toasts.ToastBus.ToastInfo | src/components/ui/Toast.tsx:25 | emits an info toast with the message |
| Theme.Names | src/hooks/useColorTheme.ts:46 | `Object.keys`: the names of the table's pairs, in order |
| Theme.Lookup | src/hooks/useColorTheme.ts:28 | a colour is found exactly when the name is a key, and it is that key's colour |
| Theme.AvailableThemes | src/hooks/useColorTheme.ts:46 | the names of the six table entries, in order |
| Theme.IsKnown | src/hooks/useColorTheme.ts:36 | a name is known exactly when it is one of the available themes, and then the table has a colour for it |
| Theme.AvailableThemesAreTheKeys | src/hooks/useColorTheme.ts:3-10 | the available themes are exactly the six keys in order, a name is known exactly when it is one of them, and the default is known |
| Theme.ColorTheme.constructor | src/hooks/useColorTheme.ts:15 | the theme starts as "forest" |
| Theme.ColorTheme.ApplyTheme | src/hooks/useColorTheme.ts:27-32 | a known name sets the text colour to its colour; an unknown name does nothing |
| Theme.ColorTheme.Load | src/hooks/useColorTheme.ts:18-24 | a saved name is adopted and applied only when it is a known theme; otherwise the theme and the colour stay as they were |
| Theme.ColorTheme.ChangeTheme | src/hooks/useColorTheme.ts:35-41 | a known name becomes the theme and is applied; it is persisted when the write succeeds, and when the write throws the slot keeps its old value and the exception is reported; an unknown name changes nothing at all |
| ViteConfig.LastSegment | vite.config.ts:13-14 | `info[info.length - 1]`: never longer than the name and never containing a dot |
| ViteConfig.LastSegmentIsSuffix | vite.config.ts:13-14 | the last segment is the suffix of the name after its last dot, or the whole name when there is no dot |
| ViteConfig.LastSegmentAfterDot | vite.config.ts:13-14 | whatever precedes the last dot, the segment is exactly what follows it |
| ViteConfig.NoDotIsWholeName | vite.config.ts:13-14 | a name without a dot is its own last segment |
| ViteConfig.OnlyLastSegmentCounts | vite.config.ts:13-14 | only the segment after the last dot decides the template, whatever comes before it |
| ViteConfig.IsImageExtension | vite.config.ts:15 | only a segment of at least three characters can match |
| ViteConfig.IsCssExtension | vite.config.ts:18 | only a segment of at least three characters can match |
| ViteConfig.AssetFileName | vite.config.ts:12-22 | always one of the three templates |
| ViteConfig.AssetTemplateChoice | vite.config.ts:15-21 | an image extension gets the image template even if it also matches css; otherwise css gets the css template; everything else gets the default |
| ViteConfig.UpperCaseImageExample | vite.config.ts:15 | the test ignores case: `logo.PNG` is an image |
| ViteConfig.UnanchoredImageExample | vite.config.ts:15 | the test is an unanchored substring match: `icons.svgz` is an image |
| ViteConfig.CssIsNotAnImage | vite.config.ts:15 | no image alternative occurs in `css`, so a style sheet is not taken for an image |
| ViteConfig.CssExample | vite.config.ts:18-19 | `index.css` goes under `assets/css/` |

## Left out

- The `fetch` call itself, the request URL and the JSON request body (prompt text, generation settings) are left out. The response is an input, and only the `inline_data` part that is sent is modelled.
- `response.json()` failing on a body that is not JSON is left out. The reply text arrives already extracted from the body, or as absent.
- `JSON.parse` and `JSON.stringify` are abstract. The parser is a parameter. The stored history is assumed to round-trip faithfully, so a slot holding valid JSON that is not an array, or an `error` value that is not a string, is not modelled.
- `FileReader` (`fileToBase64`, `fileToDataUrl`) is left out apart from the comma split. The data URL is an input, and in the orchestrator a rejected `fileToDataUrl` is an absent data URL.
- `console.error` logging is left out, including the discarded log strings with their megabyte figures.
- Timing and concurrency are left out:
  - the toast auto-dismiss timer;
  - React's scheduling of renders and effects;
  - a second `runAnalysis` started while one is in flight.

  `runAnalysis` is modelled as one atomic step from start to settlement.
- Rendering and the DOM are left out. `applyTheme` is reduced to the last colour given to `--text-color`, and `inputRef.current.value = ""` in `clear` is not modelled.
- The drop zone's `onDragOver` and `onDragLeave` toggles of `dragActive`, and its click-to-open, are left out.
- The `server` and `preview` header settings of the build configuration are left out.
- History.HistoryStore.SaveToHistory: it requires the store to be well formed and the new id to be fresh. Those stand in for the store only ever having written its own capped list, and for `crypto.randomUUID` not colliding.
- Orchestrator.App.HandleKeySaved: it reads `selectedFile` from the current state. The source reads it from the render that created the handler, which is the same value once React has re-rendered.
- Theme.IsKnown: it counts only the six own keys of `colorThemes`. JavaScript's `in` also accepts names inherited from `Object.prototype`, such as `toString`. For such a name `colorThemes[themeName]` is the inherited function, which is truthy, so `applyTheme` writes its text into `--text-color` (src/hooks/useColorTheme.ts:28-30). The load effect then adopts the name, and `changeTheme` also persists it. None of that is modelled.
- Theme.ColorTheme.ChangeTheme: a failed `localStorage.setItem` is reported as `threw`. How the uncaught exception then propagates through React is not modelled.
- Gemini.ParsedPassesThrough: the parsed value is an `AIResponse` record, so replies that parse to JSON that is not an object (`null`, a number, a boolean, a string) are outside the model. In the source, `"error" in res` (`Types.IsAnalysisError`) throws a `TypeError` for them, and the catch in src/App.tsx:72-76 turns that into an error toast.
- Gemini.GenericStatusMessage: `slice(0, 200)` counts UTF-16 code units. The model counts Dafny characters, which differ only for text outside the Basic Multilingual Plane.
- Text.Trim: the white-space set is the ECMAScript one (white space plus line terminators) written out character by character. Unicode categories beyond that list are not consulted.
- `assetInfo.name!` being undefined (asset names are assumed present) is left out.
- Reading local storage is assumed not to throw for the key slot and the theme slot. The source has no handler there, so a thrown read would propagate.
