# Quest workbench model

Quest is a terminal HTTP workbench. The user edits a request on four main
screens: the URL with its method list, the headers, the body, and the
response. They send the request and read the response, with syntax
colouring. Requests can also be saved to, and loaded from, a `.quest`
library file in the working directory.

This project models the core of that program in Dafny:

- the session's update loop, as a pure specification and as an imperative
  class;
- the key table and its help layouts;
- the HTTP client's request assembly and response folding;
- the content-type detection and syntax highlighter;
- the colour tables.

Module by module:

- `Session` (session.dfy): the session as a value. `Session.Step` is the
  whole of `Update` as one function of the session, the library file, the
  event, the terminal renderer and the widgets. Every branch of the key
  switch is a function with its own contract. The lemmas prove that the
  focus invariant is kept, that at most one request is in flight over any
  run of events, and several round trips: tab cycling, method cycling,
  focus toggling, and save-then-load.
- `Workbench` (model.dfy): the `Model` record as a class. Its methods
  assign the fields the Go methods assign. Each method's ensures gives
  the whole new state, either as a `Session` function of the old state
  (`Session.NextTab`, `Session.Sent`, `Session.Fold`, `Session.KeyEffect`,
  `Session.Step` and others) or as a field update of it. `Workbench.Model.Update` is proved equal to `Session.Step` and
  to keep the invariant. The method-list searches and the header copy are
  loops, as in the source.
- `Store` (store.dfy): the `.quest` file as a class whose content is
  missing, undecodable, or a decoded list of saved requests.
- `Keys` (keys.dfy): the default key map, the short and full help, and a
  proof that no key string is bound to two actions.
- `Types` (types.dfy): the tab and response-view enumerations, and the
  saved-request record with its list texts.
- `HttpClient` (client.dfy): `SendRequest` against an abstract transport.
  It covers:
  - which body is sent;
  - the default headers;
  - custom headers set over the defaults, under Go's canonical header names;
  - the three error paths;
  - the flattening of multi-valued response headers;
  - `FormatResponse` and `ValidateURL`.
- `Json` and `Highlighter` (highlighter.dfy): content-type detection, the
  JSON passes, the HTML and XML passes, and the dispatch in `Highlight`.
- `Patterns` (patterns.dfy): the seven regular expressions of the
  highlighter, as hand-written matchers, and the replace-all loop
  `ReplaceAllStringFunc` runs over them.
- `Styles` (styles.dfy): the colour constants, the method colour table and
  the status-code colour bands.
- `Text` (text.dfy): the string helpers the source takes from Go's
  `strings`, `unicode` and `fmt` packages.

A terminal renderer, of type `Styles.Renderer`, is a parameter everywhere.
`Styles.PlainRenderer` is the identity renderer: it adds no escape codes
and changes nothing else. Lemmas stated with it say what the highlighter
itself does to the text, apart from the renderer.

Behaviour of the code worth knowing:

- The list description separator is the three characters " â€¢ " that
  the source file holds, not a bullet.
- Sending a request switches to the response screen, but the user may
  leave that screen while the request is in flight. "Loading implies the
  response screen" is not an invariant (`Session.LoadingOutsideResponseTab`).
- Saving the current request with an empty URL does nothing.
- Loading the library shows an empty list when the file is missing or does
  not decode.

## Model

| member | source | states |
|---|---|---|
| Workbench.Model.Update | internal/ui/update.go:12-216 | Handling any message changes the fields, the library file and the returned commands exactly as `Session.Step` specifies; the focus invariant holds afterwards whenever it held before |
| Workbench.Model.HandleKey | internal/ui/update.go:23-148 | A key message: the state, file and commands after the key switch and the routing are those of `Session.Step` on that key |
| Workbench.Model.ApplyKey | internal/ui/update.go:33-147 | The switch branches that fall through to the routing change the session as `Session.KeyEffect` specifies |
| Workbench.Model.Route | internal/ui/update.go:173-213 | The unconsumed message goes to the widget chosen by screen and focus; Enter on a selected library entry loads it and drops the batched commands |
| Workbench.Model.Forward | internal/ui/update.go:173-207 | A widget's own update changes only that widget's value or cursor |
| Workbench.Model.EditText | internal/ui/update.go:174-197 | A text field edits its value only while it holds the focus |
| Workbench.Model.constructor | internal/ui/handlers.go:22-95 | A new model is the initial session (empty fields, GET selected, URL field focused), which satisfies the focus invariant |
| Workbench.Model.UpdateFocus | internal/ui/handlers.go:119-139 | The focused text fields become exactly those the screen and the focus index select |
| Workbench.Model.CurrentMethodPosition | internal/ui/update.go:83-89 | The linear search over the method list returns the index of the selected method's first occurrence |
| Workbench.Model.MoveMethod | internal/ui/update.go:81-105 | Left and right on the method list select the previous or next method cyclically; elsewhere nothing changes |
| Workbench.Model.NextTab | internal/ui/update.go:33-41 | As `Session.NextTab`: the next of the four main screens, or the URL screen when leaving the library |
| Workbench.Model.PrevTab | internal/ui/update.go:43-51 | As `Session.PrevTab`: the previous main screen, or the response screen when leaving the library |
| Workbench.Model.LeaveLibrary | internal/ui/update.go:34-36 | Leaving the library screen sets the target screen and hides the dialog, nothing else |
| Workbench.Model.FocusFirstField | internal/ui/update.go:40-41 | The focus index returns to 0 and the focused fields are recomputed |
| Workbench.Model.ToggleFocus | internal/ui/update.go:53-78 | On the URL and headers screens the focus index alternates between 0 and 1; the focused fields follow it |
| Workbench.Model.AddHeader | internal/ui/update.go:107-115 | As `Session.AddHeader`: a complete scratch header is committed and the key field refocused |
| Workbench.Model.ClearScratchHeader | internal/ui/update.go:110-111 | The scratch key and value are emptied, nothing else changes |
| Workbench.Model.FocusHeaderKey | internal/ui/update.go:112-114 | The key field gains the focus and the value field loses it |
| Workbench.Model.ClearHeaders | internal/ui/update.go:117-120 | On the headers screen the committed headers become empty; elsewhere nothing changes |
| Workbench.Model.ToggleSubTab | internal/ui/update.go:122-130 | On the response screen the body and headers views swap; elsewhere nothing changes |
| Workbench.Model.Escape | internal/ui/update.go:141-147 | Escape on the library screen returns to the URL screen with the URL field focused; elsewhere nothing changes |
| Workbench.Model.SendRequest | internal/ui/handlers.go:148-173 | Sending marks the session loading, shows the response screen, and returns a spinner tick and one dispatch of the request composed from the session before the send |
| Workbench.Model.SaveCurrentRequest | internal/ui/handlers.go:175-200 | The file afterwards is `Session.SaveCurrent` of the old file: unchanged for an empty URL, else the old list plus the new entry |
| Workbench.Model.ShowLoadRequestDialog | internal/ui/handlers.go:225-240 | The library screen opens, listing what the file currently holds |
| Workbench.Model.LoadSelectedRequest | internal/ui/handlers.go:242-264 | The URL, body, headers and method of the chosen entry are restored and the URL screen is shown |
| Workbench.Model.FillInputs | internal/ui/handlers.go:243-244 | The URL and body fields take the entry's values, nothing else changes |
| Workbench.Model.SelectMethodNamed | internal/ui/handlers.go:246-251 | The search over the method list selects the entry's method when it is known and keeps the selection otherwise |
| Workbench.Model.ReceiveResponse | internal/ui/update.go:150-164 | A response message is folded in as `Session.Fold`: loading stops and the response is shown, or the styled error on failure |
| Workbench.Model.RecordExchange | internal/ui/update.go:151-153 | Status code and response time are stored, nothing else changes |
| Workbench.Model.ShowResponse | internal/ui/update.go:155-162 | The response text is stored and the response screen shown, nothing else changes |
| Workbench.CopyHeaders | internal/ui/handlers.go:253-256 | Copying a header map entry by entry yields an equal map |
| Session.StepPreservesValid | internal/ui/update.go:12-216 | Every message keeps the invariant: focus index 0 or 1, method index in range, at most one field focused, and on the editing screens exactly the fields `updateFocus` selects |
| Session.Step | internal/ui/update.go:12-216 | The whole transition function; `Session.StepPreservesValid`, `Session.StepDispatchAccounting` and `Session.AtMostOneRequestInFlight` state its properties, and `Workbench.Model.Update` is proved equal to it |
| Session.KeyStepKeepsValid | internal/ui/update.go:23-148 | Every key message keeps the invariant |
| Session.KeyEffectKeepsValid | internal/ui/update.go:33-147 | Every fall-through branch of the key switch keeps the invariant |
| Session.AddHeaderKeepsValid | internal/ui/update.go:107-115 | Committing a header keeps the invariant, although it changes the focus directly rather than through `updateFocus` |
| Session.RouteKeepsValid | internal/ui/update.go:173-213 | Routing a message to a widget keeps the invariant, including loading a library entry |
| Session.ForwardKeepsValid | internal/ui/update.go:173-207 | A widget's own update keeps the invariant when widget cursors stay in range |
| Session.RoutedFieldIsFocused | internal/ui/update.go:173-197 | A text field that receives a message is a focused one |
| Session.InitialValid | internal/ui/handlers.go:22-95 | The initial session satisfies the invariant, is idle, shows the URL screen and has no headers |
| Session.FocusFor | internal/ui/handlers.go:119-139 | Each text field is focused exactly on its own screen and focus index; at most one is focused |
| Session.UpdateFocus | internal/ui/handlers.go:119-139 | Only the focused fields change, to those the screen and focus index select |
| Session.SelectedMethod | internal/ui/handlers.go:141-146 | The selected method name, or GET when the cursor is out of range |
| Session.FirstIndex | internal/ui/update.go:84-89 | The index of the first occurrence of a name; 0 when the name is absent |
| Session.MethodNamesDistinct | internal/ui/handlers.go:42-50 | The seven method names are pairwise distinct |
| Session.CurrentIndexIsCursor | internal/ui/update.go:83-89 | Searching the list for the selected method's name finds the cursor itself |
| Session.CurrentMethodIndexFindsName | internal/ui/update.go:83-89 | The current index equals the position the search loop finds |
| Session.MethodRight | internal/ui/update.go:94-105 | On the method list the next method is selected, wrapping after the seventh; elsewhere nothing changes |
| Session.MethodLeft | internal/ui/update.go:81-92 | On the method list the previous method is selected, wrapping before the first; elsewhere nothing changes |
| Session.RightStep | internal/ui/update.go:94-105 | In a valid session, right moves the cursor by one modulo seven |
| Session.LeftStep | internal/ui/update.go:81-92 | In a valid session, left moves the cursor back by one modulo seven |
| Session.RightTimesMoves | internal/ui/update.go:94-105 | n presses of right advance the cursor by n modulo seven |
| Session.SevenRightsRestoreMethod | internal/ui/update.go:94-105 | Seven presses of right bring back the same session |
| Session.LeftUndoesRight | internal/ui/update.go:81-105 | Left undoes right in every valid session |
| Session.NextTab | internal/ui/update.go:33-41 | Next screen cyclically over the four main screens; from the library, the URL screen with the dialog hidden; the focus index resets |
| Session.PrevTab | internal/ui/update.go:43-51 | Previous screen cyclically over the four main screens; from the library, the response screen with the dialog hidden; the focus index resets |
| Session.PrevTabUndoesNextTab | internal/ui/update.go:33-51 | On a main screen, next and previous screen are inverse in both orders |
| Session.NextTabOnMain | internal/ui/update.go:33-41 | On a main screen, next goes URL, headers, body, response, URL |
| Session.PrevTabOnMain | internal/ui/update.go:43-51 | On a main screen, previous goes the same cycle backwards |
| Session.FourNextTabsReturn | internal/ui/update.go:33-41 | Four nexts return to the same screen with only the focus reset |
| Session.FourPrevTabsReturn | internal/ui/update.go:43-51 | Four previouses return to the same screen with only the focus reset |
| Session.ToggleFocus | internal/ui/update.go:53-78 | On the URL and headers screens the focus index flips between 0 and 1; elsewhere it stays; the focused fields are recomputed |
| Session.ToggleFocusTwice | internal/ui/update.go:53-78 | Toggling the focus twice returns a valid session to itself |
| Session.ToggleSubTab | internal/ui/update.go:122-130 | On the response screen the view changes; elsewhere nothing changes |
| Session.ToggleSubTabTwice | internal/ui/update.go:122-130 | Switching the response view twice restores the session |
| Session.ToggleHelp | internal/ui/update.go:138-139 | Only the full-help flag changes, to its negation |
| Session.Escape | internal/ui/update.go:141-147 | From the library, back to the URL screen with the URL field focused and the dialog hidden; elsewhere nothing changes |
| Session.AddHeader | internal/ui/update.go:107-115 | On the headers screen with key and value non-empty: the key is added or overwritten with the value, every other header is kept, the scratch fields empty and the key field is refocused; otherwise nothing changes |
| Session.AddHeaderOverwrites | internal/ui/update.go:107-115 | Adding the same key twice leaves only the second value |
| Session.ClearHeaders | internal/ui/update.go:117-120 | On the headers screen all committed headers are removed; elsewhere nothing changes |
| Session.Compose | internal/ui/handlers.go:152-157 | The request carries the selected method, the URL, the committed headers and the body |
| Session.ScratchHeaderNotSent | internal/ui/handlers.go:152-157 | A header typed but not committed is not part of the request |
| Session.Sent | internal/ui/handlers.go:148-150 | Sending sets loading and shows the response screen, nothing else |
| Session.Fold | internal/ui/update.go:150-164 | A response stops loading and shows the response screen with its status, time and headers; the body is shown on success, the error in the error style on failure |
| Session.FailureShowsError | internal/ui/update.go:156-157 | A transport failure shows "Error: request failed: " and the reason, with status 0 and no headers |
| Session.SavedEntryListTexts | internal/ui/types.go:43-53 | A saved entry is filtered and titled by its name "<method> <url>", and described by its method, the separator and its URL |
| Session.NewEntry | internal/ui/handlers.go:180-190 | A saved entry is named by method and URL and holds the method, URL, headers and body |
| Session.SaveCurrent | internal/ui/handlers.go:175-200 | An empty URL leaves the file alone; otherwise the file holds the previous list plus the new entry |
| Session.ShowDialog | internal/ui/handlers.go:225-240 | The library screen opens with the list read from the file and the focus index reset |
| Session.Selected | internal/ui/update.go:208-209 | An entry is selected exactly when the list cursor is in range, and it is the entry under the cursor |
| Session.LoadedMethodIndex | internal/ui/handlers.go:246-251 | A known method name selects its position in the list; an unknown one keeps the current selection |
| Session.LoadSelected | internal/ui/handlers.go:242-264 | The entry's URL, body, headers and method are restored, and the URL screen is shown with the URL field focused |
| Session.SaveThenLoadRestoresRequest | internal/ui/handlers.go:175-264 | Loading a saved entry into any session composes the same request as the session it was saved from |
| Session.KeyEffect | internal/ui/update.go:33-147 | No branch of the key switch that falls through to the routing changes the loading flag |
| Session.Forward | internal/ui/update.go:173-207 | A widget update changes only the widgets' values and cursors: the screen, the focus, the loading flag, the headers, the response and the library stay as they were |
| Session.Receiver | internal/ui/update.go:173-213 | The receiving widget: the URL field, or the method list except for the arrows it already handled; the key or value field by focus; the body area; the viewport of the current response view; the request list |
| Session.NoDispatchWhileLoading | internal/ui/update.go:28-31 | While a request is loading, no message makes the session dispatch another |
| Session.RouteEmitsNoDispatch | internal/ui/update.go:173-215 | Routing adds no dispatch command |
| Session.KeySwitchSend | internal/ui/update.go:28-31 | ctrl+s reaches the send branch of the key switch |
| Session.KeySwitch | internal/ui/update.go:23-148 | The case order of the key switch; `Session.KeySwitchSend`, `Session.KeySwitchSave`, `Session.KeySwitchNextTab` and `Session.QuitKeyWinsOverTyping` state which case a key reaches |
| Session.KeySwitchSave | internal/ui/update.go:132-133 | ctrl+w reaches the save branch, past every earlier branch |
| Session.KeySwitchNextTab | internal/ui/update.go:33 | ctrl+right reaches the next-screen branch |
| Session.BlockedSendIsInert | internal/ui/update.go:28-31 | With an empty URL or a request in flight, ctrl+s falls through to the routing: the file is unchanged, the receiving widget gets the key and returns its command, no request is dispatched, and only the widgets' values and cursors may change |
| Session.SendDispatchesComposedRequest | internal/ui/update.go:28-31 | When sending is allowed, ctrl+s marks loading and returns a spinner tick and one dispatch of the composed request |
| Session.QuitKeyWinsOverTyping | internal/ui/update.go:25-26 | "q" quits on every screen, even while a text field is focused, and changes nothing |
| Session.SaveLeavesSessionUnchanged | internal/ui/update.go:132-133 | Saving changes only the file, returns no command, and with an empty URL not even the file |
| Session.LoadingOutsideResponseTab | internal/ui/update.go:28-41 | A send followed by next-screen leaves the session loading on the URL screen |
| Session.StepDispatchAccounting | internal/ui/update.go:12-216 | One message dispatches at most one request, and only from an idle session; only a response makes the session idle again |
| Session.KeyDispatchAccounting | internal/ui/update.go:23-148 | A key message dispatches only by consuming the idle state |
| Session.SendDispatchesOnce | internal/ui/handlers.go:159-172 | The send batch holds exactly one dispatch |
| Session.RouteKeepsLoading | internal/ui/update.go:173-213 | Routing never changes the loading flag |
| Session.AtMostOneRequestInFlight | internal/ui/update.go:28-31 | Over any run of messages, requests dispatched never exceed responses received, plus one if the run starts idle |
| Store.LoadAll | internal/ui/handlers.go:202-214 | Loading yields the stored list, or an empty list when the file is missing or does not decode |
| Store.QuestFile.Load | internal/ui/handlers.go:202-214 | Reading the file yields `LoadAll` of its contents |
| Store.QuestFile.Save | internal/ui/handlers.go:216-223 | The whole file is replaced by the given list |
| Store.QuestFile.constructor | internal/ui/handlers.go:202-214 | The file starts with the given contents |
| Store.SaveThenLoad | internal/ui/handlers.go:202-223 | Loading after saving yields exactly the list saved (with the encoding abstracted, this holds by definition) |
| Store.AppendToUnreadableDropsIt | internal/ui/handlers.go:192-193 | Saving over a missing or undecodable file keeps only the new entry |
| Keys.ShortHelp | internal/ui/keys.go:27-29 | The short help has six entries |
| Keys.ShortHelpOrder | internal/ui/keys.go:27-29 | The short help shows next screen, send, save, load, help and quit, in that order |
| Keys.FullHelp | internal/ui/keys.go:31-41 | The full help has seven columns of bindings, and every action's binding appears at its own cell |
| Keys.MapActions | internal/ui/keys.go:31-41 | Each position shows the binding of the action at that position |
| Keys.FullHelpShowsEveryAction | internal/ui/keys.go:31-41 | Every one of the nineteen actions appears in the full help |
| Keys.FullHelpShowsEachActionOnce | internal/ui/keys.go:31-41 | No action appears in two cells of the full help |
| Keys.ClassifyFrom | internal/ui/keys.go:43-120 | The action found holds the key; when none is found, no action holds it |
| Keys.Classify | internal/ui/keys.go:43-120 | A key yields an action only when that action's binding holds it, and none only when no binding holds it |
| Keys.BindingsDisjoint | internal/ui/keys.go:43-120 | No key string is bound to two different actions |
| Keys.ClassifyExact | internal/ui/keys.go:43-120 | A key classifies as an action exactly when that action's binding holds it |
| Types.TabOrdinal | internal/ui/types.go:18-26 | The five screens have ordinals 0 to 4 |
| Types.TabOrdinalRoundTrip | internal/ui/types.go:18-26 | Screens and ordinals convert into each other in both directions |
| Types.SubTabOrdinal | internal/ui/types.go:28-33 | The two response views have ordinals 0 and 1 |
| Types.SubTabOrdinalRoundTrip | internal/ui/types.go:28-33 | Response views and ordinals convert into each other in both directions |
| Types.Description | internal/ui/types.go:51-53 | The description is as long as the method, the separator and the URL together |
| Types.DescriptionShowsMethodAndUrl | internal/ui/types.go:51-53 | The description starts with the method, ends with the URL, with the separator between them |
| HttpClient.SendRequest | internal/http/client.go:41-92 | A refused request fails with "failed to create request: "; otherwise the wire request carries the method, URL, chosen body and assembled headers, and the result is the interpreted exchange; any failure has status 0, no headers and no body |
| HttpClient.BodyToSend | internal/http/client.go:44-48 | A body is sent exactly when it is non-empty and the method is POST, PUT or PATCH |
| HttpClient.GetSendsNoBody | internal/http/client.go:44-60 | GET, DELETE and HEAD send no body and only the user agent among the defaults |
| HttpClient.DefaultHeaders | internal/http/client.go:56-60 | The user agent is always set; the JSON content type only when a body is sent |
| HttpClient.CanonicalKey | internal/http/client.go:62-65 | The canonical header name has the name's length and agrees with it once lower-cased; a name outside the token set is kept as is |
| HttpClient.CanonicalKeyIgnoresCase | internal/http/client.go:62-65 | Token header names that differ only in the case of ASCII letters reach the same header |
| HttpClient.CanonicalKeySameIffSameLower | internal/http/client.go:62-65 | A token name and any other name reach the same header exactly when they agree once lower-cased, so names that differ beyond letter case never collide |
| HttpClient.CanonicalKeyIdempotent | internal/http/client.go:62-65 | Canonicalising a canonical name changes nothing |
| HttpClient.LowerCaseNameCanonicalised | internal/http/client.go:62-65 | "content-type" is set as "Content-Type" |
| HttpClient.NameWithSpaceKept | internal/http/client.go:62-65 | A name with a space is kept as written |
| HttpClient.HeaderSet | internal/http/client.go:57-64 | Header.Set stores the value under the canonical name; `HttpClient.SetThenGet` and `HttpClient.AssembleStep` state what it does |
| HttpClient.SetThenGet | internal/http/client.go:57-64 | After a set, every spelling of the name that agrees once lower-cased reads the new value, and a name that differs beyond letter case reads what it read before |
| HttpClient.UserAgentNameCanonical | internal/http/client.go:57 | The user-agent default is already under its canonical name |
| HttpClient.ContentTypeNameCanonical | internal/http/client.go:58-59 | The content-type default is already under its canonical name |
| HttpClient.AssembleStart | internal/http/client.go:56-60 | Before the custom headers, the header set is the defaults |
| HttpClient.AssembleStep | internal/http/client.go:62-65 | Setting one more custom header keeps the assembly invariant |
| HttpClient.SetCustomHeaders | internal/http/client.go:62-65 | The loop over the custom headers yields a header set assembled over the defaults |
| HttpClient.CustomHeaderWins | internal/http/client.go:62-65 | When no two custom names share a canonical form, each custom header is sent with its value |
| HttpClient.DefaultKeptUnlessOverridden | internal/http/client.go:56-65 | A default that no custom name reaches is sent unchanged |
| HttpClient.DefaultKeptUnlessNamedInAnyCase | internal/http/client.go:56-65 | A default whose name no custom header spells, in any letter case, is sent unchanged |
| HttpClient.CustomContentTypeOverridesDefault | internal/http/client.go:56-65 | A custom "content-type" replaces the JSON default, and the user agent stays |
| HttpClient.NoCustomHeadersSendsDefaults | internal/http/client.go:56-65 | Without custom headers exactly the defaults are sent |
| HttpClient.Failure | internal/http/client.go:51-54 | A failed response carries only its error message: status 0, no headers, no body, no time |
| HttpClient.FlattenHeaders | internal/http/client.go:80-84 | The loop over the response headers yields every name with its values joined by ", " |
| HttpClient.FlattenJoinsValues | internal/http/client.go:80-84 | Flattening keeps the names; one value is kept as is, two are joined with ", " |
| HttpClient.Flatten | internal/http/client.go:80-84 | Each response header name with its values joined by ", "; `HttpClient.FlattenJoinsValues` and `HttpClient.FlattenHeaders` state it |
| HttpClient.Interpret | internal/http/client.go:67-91 | A transport failure and an unreadable body give their prefixed errors; a received exchange gives its status, body and time, with no error, and its headers flattened with multiple values joined by ", " |
| HttpClient.ValidateUrl | internal/http/client.go:107-117 | An empty URL and a URL without http:// or https:// are rejected with their messages |
| HttpClient.ValidUrlIffScheme | internal/http/client.go:107-117 | A URL is accepted exactly when it starts with http:// or https:// |
| Json.Reformat | internal/http/client.go:94-105 | Text that decodes is re-indented; other text is returned as it is |
| Json.ReformatIdempotent | internal/http/client.go:94-105 | Formatting formatted text changes nothing |
| Highlighter.DetectContentType | internal/syntax/highlighter.go:62-82 | JSON exactly when the trimmed text is bracketed and the text as received is well-formed JSON (a syntax check, not a full decode); otherwise HTML or XML exactly when the trimmed text is between angle brackets, HTML when it mentions "<html" in any case; plain text otherwise |
| Highlighter.MarkupWithoutHIsXml | internal/syntax/highlighter.go:74-79 | Angle-bracketed text without the letter h is detected as XML |
| Highlighter.InvalidBracketedIsPlain | internal/syntax/highlighter.go:65-81 | Bracketed text that is not well-formed JSON is plain text, not markup |
| Highlighter.DecodableBracketedIsJson | internal/syntax/highlighter.go:65-70 | For a lawful codec, bracketed text that decodes is detected as JSON |
| Highlighter.WellFormedUndecodableColouredAsReceived | internal/syntax/highlighter.go:62-92 | Bracketed text that is well-formed but does not decode (a number beyond float64's range) is detected as JSON, is not re-indented, and the passes colour it as received |
| Highlighter.EffectiveType | internal/syntax/highlighter.go:44-47 | A given content type is used as is; an empty one is detected |
| Highlighter.Highlight | internal/syntax/highlighter.go:39-59 | Empty content stays empty |
| Highlighter.HighlightDispatch | internal/syntax/highlighter.go:44-58 | For any non-empty text and content type: "json" anywhere in the type selects the JSON highlighter; otherwise "html" selects HTML; otherwise "xml" selects XML; otherwise the text is kept |
| Highlighter.XhtmlIsHtml | internal/syntax/highlighter.go:49-55 | A type naming both HTML and XML ("application/xhtml+xml") is highlighted as HTML |
| Highlighter.GivenJsonTypeWins | internal/syntax/highlighter.go:45-51 | A JSON content type selects the JSON highlighter whatever the text |
| Highlighter.GivenHtmlTypeWins | internal/syntax/highlighter.go:45-53 | An HTML content type selects the HTML highlighter |
| Highlighter.GivenXmlTypeWins | internal/syntax/highlighter.go:45-55 | An XML content type selects the XML highlighter |
| Highlighter.GivenPlainTypeKeepsText | internal/syntax/highlighter.go:45-57 | A plain-text content type returns the text unchanged |
| Highlighter.OtherTypeKeepsText | internal/syntax/highlighter.go:49-58 | A content type that names none of json, html or xml returns the text unchanged |
| Highlighter.PlainTextUnchanged | internal/syntax/highlighter.go:44-58 | Detected plain text is returned unchanged |
| Highlighter.PlainHighlightKeepsText | internal/syntax/highlighter.go:39-59 | Without colour, highlighting changes the text only by JSON re-indentation |
| Highlighter.HighlightJson | internal/syntax/highlighter.go:85-130 | The loop runs the five passes in order over the re-indented text; text that does not decode is coloured in its own layout |
| Highlighter.JsonHighlighted | internal/syntax/highlighter.go:85-130 | Re-indentation when the text decodes, then the five passes; `Highlighter.PlainJsonHighlightIsReformat` and `Highlighter.InvalidJsonKeepsLayout` state it, and `Highlighter.HighlightJson` is proved equal to it |
| Highlighter.ApplyPasses | internal/syntax/highlighter.go:111-127 | The passes run in order, each over the previous one's output; `Highlighter.PlainPassesKeepText` states it |
| Highlighter.Replacement | internal/syntax/highlighter.go:113-126 | The JSON callback; `Highlighter.ValuePassColoursAfterColon`, `Highlighter.ColonLedReplacement`, `Highlighter.KeyPassColoursKey`, `Highlighter.KeyWithColonSplitsInside` and `Highlighter.PlainReplacementIsIdentity` state its branches |
| Highlighter.InvalidJsonKeepsLayout | internal/syntax/highlighter.go:87-92 | JSON that does not decode keeps its layout and, without colour, its text |
| Highlighter.PlainJsonHighlightIsReformat | internal/syntax/highlighter.go:85-130 | Without colour the JSON highlighter only re-indents |
| Highlighter.PlainReplacementIsIdentity | internal/syntax/highlighter.go:113-126 | Without colour, the JSON callback returns its match unchanged |
| Highlighter.PlainPassesKeepText | internal/syntax/highlighter.go:111-127 | Without colour, any sequence of passes leaves the text unchanged |
| Highlighter.PlainColourKeepsText | internal/syntax/highlighter.go:133-157 | Without colour, a markup pass leaves the text unchanged |
| Highlighter.PlainMarkupHighlightKeepsText | internal/syntax/highlighter.go:133-157 | Without colour, the HTML and XML highlighters leave the text unchanged |
| Highlighter.HtmlHighlighted | internal/syntax/highlighter.go:133-147 | Tag spans coloured, then attribute names; `Highlighter.PlainMarkupHighlightKeepsText` states it |
| Highlighter.XmlHighlighted | internal/syntax/highlighter.go:150-157 | Tag spans coloured; `Highlighter.XmlWithoutTagsUnchanged` and `Highlighter.PlainMarkupHighlightKeepsText` state it |
| Highlighter.ValuePassColoursAfterColon | internal/syntax/highlighter.go:113-126 | A string, number, boolean or null match keeps its colon and colours only what follows |
| Highlighter.ColonLedReplacement | internal/syntax/highlighter.go:114-122 | A match that starts with a colon, and has no quote or ends with one, has its rest coloured |
| Highlighter.KeyPassColoursKey | internal/syntax/highlighter.go:113-126 | A key match without an inner colon has the quoted key coloured and its colon kept plain |
| Highlighter.KeyWithColonSplitsInside | internal/syntax/highlighter.go:114-120 | A key that contains a colon is split at that inner colon, so the key is coloured only from there on |
| Highlighter.XmlWithoutTagsUnchanged | internal/syntax/highlighter.go:150-157 | Text without any tag span is returned unchanged by the XML highlighter |
| Patterns.MatchAt | internal/syntax/highlighter.go:95-109 | A match at a position is a non-empty span starting there |
| Patterns.TagMatch | internal/syntax/highlighter.go:135 | The tag pattern matches exactly a '<', one or more characters other than '>', and a '>' |
| Patterns.NullMatch | internal/syntax/highlighter.go:108 | The null pattern matches exactly a colon, optional white space and "null" |
| Patterns.ValueMatchColon | internal/syntax/highlighter.go:102-108 | Every value pattern's match begins with a colon |
| Patterns.NumberMatchQuoteFree | internal/syntax/highlighter.go:104 | A number match contains no quote |
| Patterns.LiteralMatchQuoteFree | internal/syntax/highlighter.go:106-108 | A boolean or null match contains no quote |
| Patterns.StringMatchEndsQuoted | internal/syntax/highlighter.go:102 | A string match ends with its closing quote |
| Patterns.KeyMatchShape | internal/syntax/highlighter.go:100 | A key match is a quoted string directly followed by a colon |
| Patterns.QuotedEnd | internal/syntax/highlighter.go:100 | A quoted string, escapes included, ends at its closing quote |
| Patterns.SpacesEnd | internal/syntax/highlighter.go:102 | The span of white space `\s*` consumes is maximal |
| Patterns.DigitsEnd | internal/syntax/highlighter.go:104 | The span of digits `\d*` consumes is maximal |
| Patterns.WordEnd | internal/syntax/highlighter.go:141 | The span of word characters `\w+` consumes is maximal |
| Patterns.ReplaceAllUnchanged | internal/syntax/highlighter.go:111-127 | Replacing every match is the identity when the callback returns each match unchanged |
| Patterns.ReplaceAll | internal/syntax/highlighter.go:113-126 | regexp's ReplaceAllStringFunc over the leftmost-first matches; `Patterns.ReplaceAllUnchanged` states it |
| Styles.StatusCodeColor | internal/styles/styles.go:99-112 | Green exactly for 2xx, yellow for 3xx, orange for 4xx, red from 500 up, dark grey below 200 |
| Styles.MethodColor | internal/styles/styles.go:114-119 | A method in the table gets its colour; any other name dark grey |
| Styles.MethodColorTable | internal/styles/styles.go:89-97 | GET green, POST blue, PUT yellow, DELETE red, PATCH purple, HEAD light grey, OPTIONS and unknown names dark grey |
| Styles.StyledMethod | internal/styles/styles.go:114-120 | The method name, bold, in `Styles.MethodColor`'s colour; `Styles.StyledMethodShowsName` states it |
| Styles.StyledMethodShowsName | internal/styles/styles.go:114-120 | Without its styling, a styled method name is the name itself |
| Styles.StyledStatusCodeShowsCode | internal/styles/styles.go:122-125 | The styled status code shows the decimal code in its band's colour, and the text reads back as the code |
| Text.TrimSpace | internal/syntax/highlighter.go:63 | The trimmed text is a slice of the input that neither starts nor ends with white space |
| Text.TrimSpaceDropsOnlySpaces | internal/syntax/highlighter.go:63 | Trimming removes only white space |
| Text.ToLower | internal/syntax/highlighter.go:75 | Each character is lower-cased in place |
| Text.IndexOf | internal/syntax/highlighter.go:116 | The first occurrence of a character, or the length when it is absent |
| Text.SplitFirst | internal/syntax/highlighter.go:116 | The two parts around the first occurrence rebuild the text |
| Text.DecimalRoundTrip | internal/styles/styles.go:124 | The decimal text of an integer reads back as that integer |

## Left out

- The view layer (views.go, `View`) and `updateSizes`: they only lay out text. Window sizes are stored and nothing else.
- methods.go and messages.go are not part of this model, apart from the `ResponseMessage` they define, which is modelled as the `Arrived` event.
- The Bubble Tea widgets (text inputs, text area, list, viewport, spinner) are abstract. Their text editing and cursor movement are two functions given as parameters. Character limits, `SetValue`'s sanitising, list filtering and pagination, the spinner animation, and viewport scrolling and content are not modelled.
- The request list's selection is modelled as an index into the loaded list, so filtering, which changes which entries are visible, is not captured.
- The full-help toggle is modelled as a `showFullHelp` flag of the session.
- The key map is the fixed default map. Key strings stand for key messages.
- Concurrency is left out. The command that performs the request runs on its own goroutine and shares the session's header map with later edits. The model composes the request at dispatch time and delivers its response as a later event.
- The network, the clock and the 30-second client timeout are inside an abstract `Transport`: which requests it refuses, what each exchange returns, and the elapsed time.
- File input and output are inside `Store.QuestFile`. The JSON encoding of the library is abstracted to its decoded contents. A failed write or a failed marshal is not modelled: a save always replaces the file.
- The JSON syntax check, decoder and indenter are an abstract `Json.Codec`: `wellFormed` stands for the unmarshal into a raw message that detection uses, `parses` for the unmarshal into an empty interface that re-indentation uses. Idempotence is proved for codecs that are lawful, meaning that decodable text is well-formed and that indenting it yields text that decodes and indents to itself.
- Go's regular-expression engine is replaced by hand-written matchers for exactly the seven patterns the highlighter uses, with leftmost-first, non-overlapping replacement.
- lipgloss's `Style.Render` is a renderer parameter. Without colour it still expands tabs to four spaces and pads the lines of multi-line text to one width. The model does not capture this, and a match that spans lines (a multi-line tag, say) could be changed by it.
- Text.ToLower: lower-cases ASCII letters only. Go's `strings.ToLower` is Unicode-aware, but the result is only searched for "<html".
- HttpClient.ValidateUrl is modelled but the session never calls it. The session only refuses an empty URL.
- handlers.go:167 passes a `ContentType` field that `client.Response` does not declare. The model hands the highlighter no content type from the response.
- Session.CurrentMethodIndex is a closed form. The search loop of update.go:84-89 is `Workbench.Model.CurrentMethodPosition`, proved equal to it.
- HttpClient.CustomHeaderWins: assumes no two custom names share a canonical form. Go map iteration order is unspecified, so with such a clash the model only says one of the clashing values wins.
