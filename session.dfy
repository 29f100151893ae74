/**
  The session of the workbench as a state machine over values: the record
  of everything the session keeps, what each key does to it, where the keys
  it does not consume go, and what a response does when it arrives. The
  class in module Workbench is proved to follow Step.
*/
module Session {
  import opened Wrappers
  import opened Styles
  import opened Types
  import opened Keys
  import opened Store
  import HttpClient

  /** The method list's items, in order. */
  const MethodNames: seq<string> := ["GET", "POST", "PUT", "DELETE", "PATCH", "HEAD", "OPTIONS"]

  /** The widgets an event can be forwarded to. */
  datatype Widget =
    | UrlField | MethodList | HeaderKeyField | HeaderValueField | BodyArea
    | ResponseBodyView | ResponseHeadersView | RequestList

  /** What reaches Update: a key, a new terminal size, a finished request, a spinner tick. */
  datatype Event =
    | Key(key: string)
    | WindowSize(width: int, height: int)
    | Arrived(response: HttpClient.Response)
    | SpinnerTick

  /** What Update hands back to the runtime. */
  datatype Cmd =
    | QuitProgram
    | SpinnerFrame
    | Dispatch(request: HttpClient.Request)
    | WidgetCmd(widget: Widget)

  /** The widget that received the event, if any, and the commands returned. */
  datatype Outcome = Outcome(delivered: Option<Widget>, cmds: seq<Cmd>)

  /**
    What the widgets do with an event they receive, left abstract: the new
    text of a focused text field, and the new cursor of a list of a given
    length.
  */
  datatype Widgets = Widgets(
    editText: (Widget, Event, string) -> string,
    moveCursor: (Widget, Event, nat, nat) -> nat)

  /** A list keeps its cursor within its items. */
  ghost predicate CursorsStayInRange(w: Widgets) {
    forall v: Widget, e: Event, i: nat, n: nat :: i < n ==> w.moveCursor(v, e, i, n) < n
  }

  /** Everything the session keeps, with the widgets replaced by their values. */
  datatype State = State(
    width: int,
    height: int,
    url: string,
    methodIndex: nat,
    headerKey: string,
    headerValue: string,
    body: string,
    focusedFields: set<Widget>,
    requestIndex: nat,
    showFullHelp: bool,
    activeTab: Tab,
    responseSubTab: SubTab,
    focused: nat,
    loading: bool,
    response: string,
    statusCode: int,
    responseTime: int,
    responseHeaders: map<string, string>,
    requestHeaders: map<string, string>,
    showingLoadDialog: bool,
    savedRequests: seq<SavedRequest>)

  /** The text fields updateFocus gives the focus to, for a tab and a focus index. */
  function FocusFor(tab: Tab, focused: nat): (fs: set<Widget>)
    ensures UrlField in fs <==> tab == UrlTab && focused == 0
    ensures HeaderKeyField in fs <==> tab == HeadersTab && focused == 0
    ensures HeaderValueField in fs <==> tab == HeadersTab && focused != 0
    ensures BodyArea in fs <==> tab == BodyTab
    ensures fs == {} || fs == {UrlField} || fs == {HeaderKeyField} || fs == {HeaderValueField} || fs == {BodyArea}
  {
    match tab
    case UrlTab => if focused == 0 then {UrlField} else {}
    case HeadersTab => if focused == 0 then {HeaderKeyField} else {HeaderValueField}
    case BodyTab => {BodyArea}
    case _ => {}
  }

  /**
    The session's invariant: the focus index is 0 or 1, the method cursor is
    on an item, at most one text field has the focus, and on the three input
    screens the focused field is the one updateFocus chooses.
  */
  predicate Valid(s: State) {
    && s.focused <= 1
    && s.methodIndex < |MethodNames|
    && (s.focusedFields == {} || s.focusedFields == {UrlField} || s.focusedFields == {HeaderKeyField}
        || s.focusedFields == {HeaderValueField} || s.focusedFields == {BodyArea})
    && (s.activeTab == UrlTab || s.activeTab == HeadersTab || s.activeTab == BodyTab ==>
          s.focusedFields == FocusFor(s.activeTab, s.focused))
  }

  /** NewModel: empty fields, GET selected, the URL field focused, the URL screen and the body view. */
  const Initial: State := State(
    0, 0, "", 0, "", "", "", {UrlField}, 0, false,
    UrlTab, BodySubTab, 0, false, "", 0, 0, map[], map[], false, [])

  lemma InitialValid()
    ensures Valid(Initial)
    ensures !Initial.loading && Initial.activeTab == UrlTab && Initial.requestHeaders == map[]
  {
  }

  // ---------------------------------------------------------------------
  // Methods

  /** getSelectedMethod: the name under the cursor, or "GET" when there is none. */
  function SelectedMethod(index: nat): (name: string)
    ensures index < |MethodNames| ==> name == MethodNames[index]
    ensures index >= |MethodNames| ==> name == "GET"
  {
    if index < |MethodNames| then MethodNames[index] else "GET"
  }

  /** The first position of `name` in `names`, or 0 when it is absent. */
  function FirstIndex(names: seq<string>, name: string): (i: nat)
    ensures name in names ==> i < |names| && names[i] == name && forall j :: 0 <= j < i ==> names[j] != name
    ensures name !in names ==> i == 0
  {
    if names == [] then 0
    else if names[0] == name then 0
    else if name in names[1..] then 1 + FirstIndex(names[1..], name)
    else 0
  }

  /** The method names are pairwise different. */
  lemma MethodNamesDistinct(i: nat, j: nat)
    requires i < j < |MethodNames|
    ensures MethodNames[i] != MethodNames[j]
  {
  }

  /** Looking up the selected method's name finds the cursor itself. */
  lemma CurrentIndexIsCursor(index: nat)
    requires index < |MethodNames|
    ensures FirstIndex(MethodNames, SelectedMethod(index)) == index
  {
    var i := FirstIndex(MethodNames, SelectedMethod(index));
    assert MethodNames[index] == SelectedMethod(index);
    if i < index {
      MethodNamesDistinct(i, index);
    }
  }

  /**
    The index the arrow keys start from. The handler finds it by searching
    the items for the selected method's name; CurrentMethodIndexFindsName
    shows that search lands here: on the cursor, or on GET when the cursor
    is off the list.
  */
  function CurrentMethodIndex(s: State): (i: nat)
    ensures i < |MethodNames|
  {
    if s.methodIndex < |MethodNames| then s.methodIndex else 0
  }

  lemma CurrentMethodIndexFindsName(s: State)
    ensures FirstIndex(MethodNames, SelectedMethod(s.methodIndex)) == CurrentMethodIndex(s)
  {
    if s.methodIndex < |MethodNames| {
      CurrentIndexIsCursor(s.methodIndex);
    } else {
      assert MethodNames[0] == "GET";
    }
  }

  predicate OnMethodList(s: State) {
    s.activeTab == UrlTab && s.focused == 1
  }

  /** The right arrow on the method list selects the next method, wrapping after the last. */
  function MethodRight(s: State): (r: State)
    ensures OnMethodList(s) ==> r == s.(methodIndex := (CurrentMethodIndex(s) + 1) % 7)
    ensures !OnMethodList(s) ==> r == s
  {
    if OnMethodList(s) then s.(methodIndex := (CurrentMethodIndex(s) + 1) % 7) else s
  }

  /** The left arrow on the method list selects the previous method, wrapping before the first. */
  function MethodLeft(s: State): (r: State)
    ensures OnMethodList(s) ==> r == s.(methodIndex := (CurrentMethodIndex(s) - 1 + 7) % 7)
    ensures !OnMethodList(s) ==> r == s
  {
    if OnMethodList(s) then s.(methodIndex := (CurrentMethodIndex(s) - 1 + 7) % 7) else s
  }

  /** On the method list, the right arrow moves the cursor one item on, wrapping. */
  lemma RightStep(s: State)
    requires s.methodIndex < |MethodNames| && OnMethodList(s)
    ensures MethodRight(s) == s.(methodIndex := (s.methodIndex + 1) % 7)
  {
  }

  /** On the method list, the left arrow moves the cursor one item back, wrapping. */
  lemma LeftStep(s: State)
    requires s.methodIndex < |MethodNames| && OnMethodList(s)
    ensures MethodLeft(s) == s.(methodIndex := (s.methodIndex + 7 - 1) % 7)
  {
  }

  function RightTimes(s: State, n: nat): State {
    if n == 0 then s else MethodRight(RightTimes(s, n - 1))
  }

  lemma ModSucc(a: nat)
    ensures (a % 7 + 1) % 7 == (a + 1) % 7
  {
  }

  lemma {:induction false} RightTimesMoves(s: State, n: nat)
    requires s.methodIndex < |MethodNames| && OnMethodList(s)
    ensures RightTimes(s, n) == s.(methodIndex := (s.methodIndex + n) % 7)
  {
    if n > 0 {
      RightTimesMoves(s, n - 1);
      var t := RightTimes(s, n - 1);
      RightStep(t);
      ModSucc(s.methodIndex + n - 1);
    }
  }

  /** Seven presses of the right arrow bring back the method the list started on. */
  lemma SevenRightsRestoreMethod(s: State)
    requires Valid(s) && OnMethodList(s)
    ensures RightTimes(s, 7) == s
  {
    RightTimesMoves(s, 7);
  }

  /** The left arrow undoes the right arrow. */
  lemma LeftUndoesRight(s: State)
    requires Valid(s)
    ensures MethodLeft(MethodRight(s)) == s
  {
    if OnMethodList(s) {
      RightStep(s);
      var t := MethodRight(s);
      LeftStep(t);
      assert |MethodNames| == 7;
      assert t.methodIndex == (s.methodIndex + 1) % 7;
      assert (t.methodIndex + 6) % 7 == s.methodIndex;
    }
  }

  // ---------------------------------------------------------------------
  // Screens and focus

  /** updateFocus: only the field updateFocus chooses keeps the focus. */
  function UpdateFocus(s: State): (r: State)
    ensures r == s.(focusedFields := FocusFor(s.activeTab, s.focused))
  {
    s.(focusedFields := FocusFor(s.activeTab, s.focused))
  }

  /** The next of the four main screens, or the URL screen when leaving the library. */
  function NextTab(s: State): (r: State)
    ensures r.activeTab != LoadRequestTab && r.focused == 0
    ensures s.activeTab == LoadRequestTab ==> r.activeTab == UrlTab && !r.showingLoadDialog
    ensures s.activeTab != LoadRequestTab ==>
      TabOrdinal(r.activeTab) == (TabOrdinal(s.activeTab) + 1) % 4 && r.showingLoadDialog == s.showingLoadDialog
    ensures r == s.(activeTab := r.activeTab, showingLoadDialog := r.showingLoadDialog,
                    focused := 0, focusedFields := FocusFor(r.activeTab, 0))
  {
    var t := if s.activeTab == LoadRequestTab then s.(activeTab := UrlTab, showingLoadDialog := false)
             else s.(activeTab := TabAt((TabOrdinal(s.activeTab) + 1) % 4));
    UpdateFocus(t.(focused := 0))
  }

  /** The previous of the four main screens, or the response screen when leaving the library. */
  function PrevTab(s: State): (r: State)
    ensures r.activeTab != LoadRequestTab && r.focused == 0
    ensures s.activeTab == LoadRequestTab ==> r.activeTab == ResponseTab && !r.showingLoadDialog
    ensures s.activeTab != LoadRequestTab ==>
      TabOrdinal(r.activeTab) == (TabOrdinal(s.activeTab) + 3) % 4 && r.showingLoadDialog == s.showingLoadDialog
    ensures r == s.(activeTab := r.activeTab, showingLoadDialog := r.showingLoadDialog,
                    focused := 0, focusedFields := FocusFor(r.activeTab, 0))
  {
    var t := if s.activeTab == LoadRequestTab then s.(activeTab := ResponseTab, showingLoadDialog := false)
             else s.(activeTab := TabAt((TabOrdinal(s.activeTab) + 3) % 4));
    UpdateFocus(t.(focused := 0))
  }

  /** NextTab and PrevTab undo each other on the four main screens. */
  lemma PrevTabUndoesNextTab(s: State)
    requires s.activeTab != LoadRequestTab
    ensures PrevTab(NextTab(s)).activeTab == s.activeTab
    ensures NextTab(PrevTab(s)).activeTab == s.activeTab
  {
  }

  /** The screen after t among the four main screens, in ordinal order. */
  function MainAfter(t: Tab): Tab {
    match t
    case UrlTab => HeadersTab
    case HeadersTab => BodyTab
    case BodyTab => ResponseTab
    case _ => UrlTab
  }

  /** The screen before t among the four main screens. */
  function MainBefore(t: Tab): Tab {
    match t
    case HeadersTab => UrlTab
    case BodyTab => HeadersTab
    case ResponseTab => BodyTab
    case _ => ResponseTab
  }

  lemma NextTabOnMain(s: State)
    requires s.activeTab != LoadRequestTab
    ensures NextTab(s).activeTab == MainAfter(s.activeTab)
  {
  }

  lemma PrevTabOnMain(s: State)
    requires s.activeTab != LoadRequestTab
    ensures PrevTab(s).activeTab == MainBefore(s.activeTab)
  {
  }

  /** Four presses of PrevTab on a main screen come back to it, with the focus reset. */
  lemma FourPrevTabsReturn(s: State)
    requires s.activeTab != LoadRequestTab
    ensures PrevTab(PrevTab(PrevTab(PrevTab(s)))) == UpdateFocus(s.(focused := 0))
  {
    var s1 := PrevTab(s);
    var s2 := PrevTab(s1);
    var s3 := PrevTab(s2);
    PrevTabOnMain(s);
    PrevTabOnMain(s1);
    PrevTabOnMain(s2);
    PrevTabOnMain(s3);
  }

  /** Four presses of NextTab on a main screen come back to it, with the focus reset. */
  lemma FourNextTabsReturn(s: State)
    requires s.activeTab != LoadRequestTab
    ensures NextTab(NextTab(NextTab(NextTab(s)))) == UpdateFocus(s.(focused := 0))
  {
    var s1 := NextTab(s);
    var s2 := NextTab(s1);
    var s3 := NextTab(s2);
    NextTabOnMain(s);
    NextTabOnMain(s1);
    NextTabOnMain(s2);
    NextTabOnMain(s3);
  }

  /** The three focus keys: on the URL and headers screens they swap between the two fields. */
  function ToggleFocus(s: State): (r: State)
    ensures s.activeTab == UrlTab || s.activeTab == HeadersTab ==> r.focused == (s.focused + 1) % 2
    ensures !(s.activeTab == UrlTab || s.activeTab == HeadersTab) ==> r.focused == s.focused
    ensures r == s.(focused := r.focused, focusedFields := FocusFor(s.activeTab, r.focused))
  {
    var t := if s.activeTab == UrlTab || s.activeTab == HeadersTab then s.(focused := (s.focused + 1) % 2) else s;
    UpdateFocus(t)
  }

  /** Two presses of a focus key come back to the same field. */
  lemma ToggleFocusTwice(s: State)
    requires Valid(s)
    ensures ToggleFocus(ToggleFocus(s)) == UpdateFocus(s)
  {
  }

  /** Shift-arrows swap the response views, on the response screen only. */
  function ToggleSubTab(s: State): (r: State)
    ensures s.activeTab == ResponseTab ==> r.responseSubTab != s.responseSubTab
    ensures r == s.(responseSubTab := r.responseSubTab)
    ensures s.activeTab != ResponseTab ==> r == s
  {
    if s.activeTab == ResponseTab then s.(responseSubTab := SubTabAt((SubTabOrdinal(s.responseSubTab) + 1) % 2)) else s
  }

  lemma ToggleSubTabTwice(s: State)
    ensures ToggleSubTab(ToggleSubTab(s)) == s
  {
  }

  function ToggleHelp(s: State): (r: State)
    ensures r.showFullHelp == !s.showFullHelp
    ensures r == s.(showFullHelp := r.showFullHelp)
  {
    s.(showFullHelp := !s.showFullHelp)
  }

  /** Esc leaves the library for the URL screen; elsewhere it does nothing. */
  function Escape(s: State): (r: State)
    ensures s.activeTab == LoadRequestTab ==>
      r == s.(activeTab := UrlTab, showingLoadDialog := false, focused := 0, focusedFields := {UrlField})
    ensures s.activeTab != LoadRequestTab ==> r == s
  {
    if s.activeTab == LoadRequestTab then UpdateFocus(s.(activeTab := UrlTab, showingLoadDialog := false, focused := 0))
    else s
  }

  // ---------------------------------------------------------------------
  // Headers

  /**
    AddHeader on the headers screen with both scratch fields filled: the
    pair is committed (replacing an earlier value of the same name), the
    scratch fields are emptied and the name field gets the focus.
  */
  function AddHeader(s: State): (r: State)
    ensures s.activeTab == HeadersTab && s.headerKey != "" && s.headerValue != "" ==>
      && r.requestHeaders.Keys == s.requestHeaders.Keys + {s.headerKey}
      && r.requestHeaders[s.headerKey] == s.headerValue
      && (forall k :: k in s.requestHeaders && k != s.headerKey ==> r.requestHeaders[k] == s.requestHeaders[k])
      && r == s.(requestHeaders := r.requestHeaders, headerKey := "", headerValue := "", focused := 0,
                 focusedFields := s.focusedFields + {HeaderKeyField} - {HeaderValueField})
    ensures !(s.activeTab == HeadersTab && s.headerKey != "" && s.headerValue != "") ==> r == s
  {
    if s.activeTab == HeadersTab && s.headerKey != "" && s.headerValue != "" then
      s.(requestHeaders := s.requestHeaders[s.headerKey := s.headerValue],
         headerKey := "", headerValue := "",
         focusedFields := s.focusedFields + {HeaderKeyField} - {HeaderValueField},
         focused := 0)
    else s
  }

  /** ClearHeaders empties the committed headers, on the headers screen only. */
  function ClearHeaders(s: State): (r: State)
    ensures s.activeTab == HeadersTab ==> r == s.(requestHeaders := map[])
    ensures s.activeTab != HeadersTab ==> r == s
  {
    if s.activeTab == HeadersTab then s.(requestHeaders := map[]) else s
  }

  /** Adding the same header twice is the same as adding it once. */
  lemma AddHeaderOverwrites(s: State, v1: string, v2: string)
    requires s.activeTab == HeadersTab && s.headerKey != "" && v1 != "" && v2 != ""
    ensures AddHeader(AddHeader(s.(headerValue := v1)).(headerKey := s.headerKey, headerValue := v2)).requestHeaders
         == AddHeader(s.(headerValue := v2)).requestHeaders
  {
  }

  // ---------------------------------------------------------------------
  // Sending and receiving

  /** The send guard: no request in flight and a URL typed. */
  predicate CanSend(s: State) {
    !s.loading && s.url != ""
  }

  /** The request built from the session: selected method, URL, committed headers, body. */
  function Compose(s: State): (req: HttpClient.Request)
    ensures req.methodName in MethodNames || req.methodName == "GET"
    ensures req.url == s.url && req.headers == s.requestHeaders && req.body == s.body
  {
    HttpClient.Request(SelectedMethod(s.methodIndex), s.url, s.requestHeaders, s.body)
  }

  /** Header text still in the scratch fields is never sent. */
  lemma ScratchHeaderNotSent(s: State, k: string, v: string)
    ensures Compose(s.(headerKey := k, headerValue := v)) == Compose(s)
  {
  }

  /** sendRequest: the session waits for the answer on the response screen. */
  function Sent(s: State): (r: State)
    ensures r.loading && r.activeTab == ResponseTab
    ensures r == s.(loading := true, activeTab := ResponseTab)
  {
    s.(loading := true, activeTab := ResponseTab)
  }

  /**
    A ResponseMessage: the wait ends, status, time and headers are kept, the
    response text is the styled error when there is one and the body
    otherwise, and the response screen is shown.
  */
  function Fold(s: State, m: HttpClient.Response, render: Renderer): (r: State)
    ensures !r.loading && r.activeTab == ResponseTab
    ensures r.statusCode == m.statusCode && r.responseTime == m.responseTime && r.responseHeaders == m.headers
    ensures m.error.Some? ==> r.response == render(ErrorStyle, "Error: " + m.error.value)
    ensures m.error.None? ==> r.response == m.body
    ensures r == s.(loading := false, statusCode := r.statusCode, responseTime := r.responseTime,
                    responseHeaders := r.responseHeaders, response := r.response, activeTab := ResponseTab)
  {
    s.(loading := false,
       statusCode := m.statusCode,
       responseTime := m.responseTime,
       responseHeaders := m.headers,
       response := if m.error.Some? then render(ErrorStyle, "Error: " + m.error.value) else m.body,
       activeTab := ResponseTab)
  }

  /** A failed request shows its error text and status 0; the body of a failure is never shown. */
  lemma FailureShowsError(s: State, reason: string)
    ensures var r := Fold(s, HttpClient.Failure("request failed: " + reason), PlainRenderer);
      r.response == "Error: request failed: " + reason && r.statusCode == 0 && r.responseHeaders == map[]
  {
  }

  // ---------------------------------------------------------------------
  // The request library

  /** A saved entry is listed, filtered and titled by "<method> <url>", and described by method and URL. */
  lemma SavedEntryListTexts(s: State)
    ensures FilterValue(NewEntry(s)) == SelectedMethod(s.methodIndex) + " " + s.url
    ensures Title(NewEntry(s)) == FilterValue(NewEntry(s))
    ensures Description(NewEntry(s)) == SelectedMethod(s.methodIndex) + Separator + s.url
  {
  }

  /** The entry saveCurrentRequest appends: named "<method> <url>", with copies of the session's values. */
  function NewEntry(s: State): (e: SavedRequest)
    ensures e.name == SelectedMethod(s.methodIndex) + " " + s.url
    ensures e.methodName == SelectedMethod(s.methodIndex) && e.url == s.url
    ensures e.headers == s.requestHeaders && e.body == s.body
  {
    SavedRequest(SelectedMethod(s.methodIndex) + " " + s.url, SelectedMethod(s.methodIndex), s.url, s.requestHeaders, s.body)
  }

  /** saveCurrentRequest: with a URL, the file holds what it held (or nothing) plus the new entry. */
  function SaveCurrent(s: State, store: FileState): (f: FileState)
    ensures s.url == "" ==> f == store
    ensures s.url != "" ==> LoadAll(f) == LoadAll(store) + [NewEntry(s)]
  {
    if s.url == "" then store else Stored(LoadAll(store) + [NewEntry(s)])
  }

  /** showLoadRequestDialog: the library screen with the file's entries. */
  function ShowDialog(s: State, store: FileState): (r: State)
    ensures r.savedRequests == LoadAll(store) && r.activeTab == LoadRequestTab && r.showingLoadDialog && r.focused == 0
    ensures r == s.(savedRequests := LoadAll(store), activeTab := LoadRequestTab, showingLoadDialog := true, focused := 0)
  {
    s.(savedRequests := LoadAll(store), activeTab := LoadRequestTab, showingLoadDialog := true, focused := 0)
  }

  /** The request under the library cursor, if the cursor is on one. */
  function Selected(s: State): (r: Option<SavedRequest>)
    ensures r.Some? <==> s.requestIndex < |s.savedRequests|
    ensures r.Some? ==> r.value == s.savedRequests[s.requestIndex]
  {
    if s.requestIndex < |s.savedRequests| then Some(s.savedRequests[s.requestIndex]) else None
  }

  /** The method cursor after loading a request: the first item with its name, or where it was. */
  function LoadedMethodIndex(current: nat, name: string): (i: nat)
    ensures name in MethodNames ==> i < |MethodNames| && MethodNames[i] == name
    ensures name !in MethodNames ==> i == current
  {
    if name in MethodNames then FirstIndex(MethodNames, name) else current
  }

  /**
    loadSelectedRequest: URL, body and method come from the entry, the
    committed headers are replaced by the entry's, and the URL screen is
    shown with the URL field focused.
  */
  function LoadSelected(s: State, e: SavedRequest): (r: State)
    ensures r.url == e.url && r.body == e.body && r.requestHeaders == e.headers
    ensures r.methodIndex == LoadedMethodIndex(s.methodIndex, e.methodName)
    ensures r.activeTab == UrlTab && !r.showingLoadDialog && r.focused == 0 && r.focusedFields == {UrlField}
    ensures r == s.(url := e.url, body := e.body, methodIndex := r.methodIndex, requestHeaders := e.headers,
                    activeTab := UrlTab, showingLoadDialog := false, focused := 0, focusedFields := {UrlField})
  {
    var t := s.(url := e.url, body := e.body, methodIndex := LoadedMethodIndex(s.methodIndex, e.methodName),
                requestHeaders := e.headers, activeTab := UrlTab, showingLoadDialog := false, focused := 0);
    UpdateFocus(t)
  }

  /** Saving and then loading the entry gives back the request that was saved. */
  lemma SaveThenLoadRestoresRequest(s: State, t: State)
    requires Valid(s) && s.url != ""
    ensures Compose(LoadSelected(t, NewEntry(s))) == Compose(s)
  {
    CurrentIndexIsCursor(s.methodIndex);
  }

  // ---------------------------------------------------------------------
  // Keys

  /** The branches of Update's key switch. */
  datatype KeyCase =
    | QuitCase | SendCase | NextTabCase | PrevTabCase | NextFocusCase | PrevFocusCase | TabCase
    | LeftArrowCase | RightArrowCase | AddHeaderCase | ClearHeadersCase
    | NextResponseTabCase | PrevResponseTabCase | SaveCase | LoadCase | HelpCase | EscCase | OtherCase

  /** The first branch of the switch whose condition the key string meets. */
  function KeySwitch(k: string): KeyCase {
    if Matches(k, DefaultBinding(Quit)) then QuitCase
    else if Matches(k, DefaultBinding(Send)) then SendCase
    else if Matches(k, DefaultBinding(Keys.NextTab)) then NextTabCase
    else if Matches(k, DefaultBinding(Keys.PrevTab)) then PrevTabCase
    else if Matches(k, DefaultBinding(NextFocus)) then NextFocusCase
    else if Matches(k, DefaultBinding(PrevFocus)) then PrevFocusCase
    else if Matches(k, DefaultBinding(TabKey)) then TabCase
    else if k == "left" then LeftArrowCase
    else if k == "right" then RightArrowCase
    else if Matches(k, DefaultBinding(Keys.AddHeader)) then AddHeaderCase
    else if Matches(k, DefaultBinding(Keys.ClearHeaders)) then ClearHeadersCase
    else if Matches(k, DefaultBinding(NextResponseTab)) then NextResponseTabCase
    else if Matches(k, DefaultBinding(PrevResponseTab)) then PrevResponseTabCase
    else if Matches(k, DefaultBinding(SaveRequest)) then SaveCase
    else if Matches(k, DefaultBinding(LoadRequest)) then LoadCase
    else if Matches(k, DefaultBinding(Help)) then HelpCase
    else if k == "esc" then EscCase
    else OtherCase
  }

  /** What the switch does to the state for the branches that go on to the routing. */
  function KeyEffect(s: State, c: KeyCase): (r: State)
    ensures r.loading == s.loading
  {
    match c
    case NextTabCase => NextTab(s)
    case PrevTabCase => PrevTab(s)
    case NextFocusCase => ToggleFocus(s)
    case PrevFocusCase => ToggleFocus(s)
    case TabCase => ToggleFocus(s)
    case LeftArrowCase => MethodLeft(s)
    case RightArrowCase => MethodRight(s)
    case AddHeaderCase => AddHeader(s)
    case ClearHeadersCase => ClearHeaders(s)
    case NextResponseTabCase => ToggleSubTab(s)
    case PrevResponseTabCase => ToggleSubTab(s)
    case HelpCase => ToggleHelp(s)
    case EscCase => Escape(s)
    case _ => s
  }

  // ---------------------------------------------------------------------
  // Routing

  /** What a widget's own update does to the modelled values. */
  function Forward(s: State, w: Widget, ev: Event, widgets: Widgets): (r: State)
    ensures r.activeTab == s.activeTab && r.focused == s.focused && r.focusedFields == s.focusedFields
    ensures r.loading == s.loading && r.requestHeaders == s.requestHeaders && r.savedRequests == s.savedRequests
    ensures r == s.(url := r.url, methodIndex := r.methodIndex, headerKey := r.headerKey,
                    headerValue := r.headerValue, body := r.body, requestIndex := r.requestIndex)
  {
    match w
    case UrlField => if UrlField in s.focusedFields then s.(url := widgets.editText(w, ev, s.url)) else s
    case HeaderKeyField => if HeaderKeyField in s.focusedFields then s.(headerKey := widgets.editText(w, ev, s.headerKey)) else s
    case HeaderValueField => if HeaderValueField in s.focusedFields then s.(headerValue := widgets.editText(w, ev, s.headerValue)) else s
    case BodyArea => if BodyArea in s.focusedFields then s.(body := widgets.editText(w, ev, s.body)) else s
    case MethodList => s.(methodIndex := widgets.moveCursor(w, ev, s.methodIndex, |MethodNames|))
    case RequestList => s.(requestIndex := widgets.moveCursor(w, ev, s.requestIndex, |s.savedRequests|))
    case _ => s
  }

  function Deliver(s: State, w: Widget, ev: Event, cmds: seq<Cmd>, widgets: Widgets): (State, Outcome) {
    (Forward(s, w, ev, widgets), Outcome(Some(w), cmds + [WidgetCmd(w)]))
  }

  /** The widget that receives what the switch did not consume, by screen, focus and view. */
  function Receiver(s: State, ev: Event): (w: Option<Widget>)
    ensures s.activeTab == UrlTab && s.focused == 0 ==> w == Some(UrlField)
    ensures s.activeTab == UrlTab && s.focused != 0 ==>
      (w == None <==> ev.Key? && (ev.key == "left" || ev.key == "right")) && (w != None ==> w == Some(MethodList))
    ensures s.activeTab == ResponseTab ==>
      w == Some(if s.responseSubTab == BodySubTab then ResponseBodyView else ResponseHeadersView)
    ensures s.activeTab == HeadersTab ==> w == Some(if s.focused == 0 then HeaderKeyField else HeaderValueField)
    ensures s.activeTab == BodyTab ==> w == Some(BodyArea)
    ensures s.activeTab == LoadRequestTab ==> w == Some(RequestList)
  {
    match s.activeTab
    case UrlTab =>
      if s.focused == 0 then Some(UrlField)
      else if ev.Key? && (ev.key == "left" || ev.key == "right") then None
      else Some(MethodList)
    case HeadersTab => Some(if s.focused == 0 then HeaderKeyField else HeaderValueField)
    case BodyTab => Some(BodyArea)
    case ResponseTab => Some(if s.responseSubTab == BodySubTab then ResponseBodyView else ResponseHeadersView)
    case LoadRequestTab => Some(RequestList)
  }

  /**
    The routing after the switch: the receiving widget gets the event; on the
    library screen, Enter on an entry then loads it and the commands are dropped.
  */
  function Route(s: State, ev: Event, cmds: seq<Cmd>, widgets: Widgets): (State, Outcome) {
    match Receiver(s, ev)
    case None => (s, Outcome(None, cmds))
    case Some(w) =>
      if w == RequestList then
        var t := Forward(s, RequestList, ev, widgets);
        if ev.Key? && Matches(ev.key, DefaultBinding(Enter)) && Selected(t).Some? then
          (LoadSelected(t, Selected(t).value), Outcome(Some(RequestList), []))
        else (t, Outcome(Some(RequestList), cmds + [WidgetCmd(RequestList)]))
      else Deliver(s, w, ev, cmds, widgets)
  }

  /** Update as a function of the session, the file, the event, the terminal renderer and the widgets. */
  function Step(s: State, store: FileState, ev: Event, render: Renderer, widgets: Widgets): (State, FileState, Outcome) {
    match ev
    case WindowSize(w, h) => (s.(width := w, height := h), store, Outcome(None, []))
    case Arrived(m) => (Fold(s, m, render), store, Outcome(None, []))
    case SpinnerTick =>
      var (t, o) := Route(s, ev, if s.loading then [SpinnerFrame] else [], widgets);
      (t, store, o)
    case Key(k) =>
      var c := KeySwitch(k);
      if c == QuitCase then (s, store, Outcome(None, [QuitProgram]))
      else if c == SendCase && CanSend(s) then (Sent(s), store, Outcome(None, [SpinnerFrame, Dispatch(Compose(s))]))
      else if c == SaveCase then (s, SaveCurrent(s, store), Outcome(None, []))
      else if c == LoadCase then (ShowDialog(s, store), store, Outcome(None, []))
      else
        var (t, o) := Route(KeyEffect(s, c), ev, [], widgets);
        (t, store, o)
  }

  // ---------------------------------------------------------------------
  // Properties of Step

  /** Every transition keeps the session's invariant. */
  lemma StepPreservesValid(s: State, store: FileState, ev: Event, render: Renderer, widgets: Widgets)
    requires Valid(s) && CursorsStayInRange(widgets)
    ensures Valid(Step(s, store, ev, render, widgets).0)
  {
    match ev
    case WindowSize(_, _) =>
    case Arrived(m) =>
      assert Valid(Fold(s, m, render));
    case SpinnerTick =>
      RouteKeepsValid(s, ev, if s.loading then [SpinnerFrame] else [], widgets);
    case Key(k) =>
      KeyStepKeepsValid(s, store, k, render, widgets);
  }

  lemma KeyStepKeepsValid(s: State, store: FileState, k: string, render: Renderer, widgets: Widgets)
    requires Valid(s) && CursorsStayInRange(widgets)
    ensures Valid(Step(s, store, Key(k), render, widgets).0)
  {
    var c := KeySwitch(k);
    if c == QuitCase || c == SaveCase {
    } else if c == SendCase && CanSend(s) {
      assert Valid(Sent(s));
    } else if c == LoadCase {
      assert Valid(ShowDialog(s, store));
    } else {
      KeyEffectKeepsValid(s, c);
      RouteKeepsValid(KeyEffect(s, c), Key(k), [], widgets);
    }
  }

  lemma KeyEffectKeepsValid(s: State, c: KeyCase)
    requires Valid(s)
    ensures Valid(KeyEffect(s, c))
  {
    var t := KeyEffect(s, c);
    match c
    case NextTabCase => RefocusedIsValid(t);
    case PrevTabCase => RefocusedIsValid(t);
    case NextFocusCase => RefocusedIsValid(t);
    case PrevFocusCase => RefocusedIsValid(t);
    case TabCase => RefocusedIsValid(t);
    case LeftArrowCase => assert t == MethodLeft(s);
    case RightArrowCase => assert t == MethodRight(s);
    case AddHeaderCase => AddHeaderKeepsValid(s);
    case ClearHeadersCase => assert t == ClearHeaders(s);
    case NextResponseTabCase => assert t == ToggleSubTab(s);
    case PrevResponseTabCase => assert t == ToggleSubTab(s);
    case HelpCase => assert t == ToggleHelp(s);
    case EscCase => assert t == Escape(s);
    case _ => assert t == s;
  }

  /** A state whose focus set is the one updateFocus chooses is valid once its indices are in range. */
  lemma RefocusedIsValid(s: State)
    requires s.focused <= 1 && s.methodIndex < |MethodNames|
    requires s.focusedFields == FocusFor(s.activeTab, s.focused)
    ensures Valid(s)
  {
  }

  lemma AddHeaderKeepsValid(s: State)
    requires Valid(s)
    ensures Valid(AddHeader(s))
  {
    if s.activeTab == HeadersTab && s.headerKey != "" && s.headerValue != "" {
      assert AddHeader(s).focusedFields == {HeaderKeyField};
    }
  }

  lemma RouteKeepsValid(s: State, ev: Event, cmds: seq<Cmd>, widgets: Widgets)
    requires Valid(s) && CursorsStayInRange(widgets)
    ensures Valid(Route(s, ev, cmds, widgets).0)
  {
    match Receiver(s, ev)
    case None =>
    case Some(w) =>
      ForwardKeepsValid(s, w, ev, widgets);
  }

  /** A widget's own update leaves the focus alone and the method cursor in range. */
  lemma ForwardKeepsValid(s: State, w: Widget, ev: Event, widgets: Widgets)
    requires Valid(s) && CursorsStayInRange(widgets)
    ensures Valid(Forward(s, w, ev, widgets))
  {
    if w == MethodList {
      assert Forward(s, w, ev, widgets).methodIndex == widgets.moveCursor(w, ev, s.methodIndex, |MethodNames|);
    }
  }

  /** A text field receives an event only when it holds the focus. */
  lemma RoutedFieldIsFocused(s: State, ev: Event)
    requires Valid(s)
    requires Receiver(s, ev) == Some(UrlField) || Receiver(s, ev) == Some(HeaderKeyField)
          || Receiver(s, ev) == Some(HeaderValueField) || Receiver(s, ev) == Some(BodyArea)
    ensures Receiver(s, ev).value in s.focusedFields
  {
  }

  /** While a request is in flight, no event dispatches another one. */
  lemma NoDispatchWhileLoading(s: State, store: FileState, ev: Event, render: Renderer, widgets: Widgets, i: nat)
    requires s.loading
    requires i < |Step(s, store, ev, render, widgets).2.cmds|
    ensures !Step(s, store, ev, render, widgets).2.cmds[i].Dispatch?
  {
    RouteEmitsNoDispatch(s, ev, if s.loading then [SpinnerFrame] else [], widgets);
    if ev.Key? {
      RouteEmitsNoDispatch(KeyEffect(s, KeySwitch(ev.key)), ev, [], widgets);
    }
  }

  lemma RouteEmitsNoDispatch(s: State, ev: Event, cmds: seq<Cmd>, widgets: Widgets)
    requires forall c :: c in cmds ==> !c.Dispatch?
    ensures forall c :: c in Route(s, ev, cmds, widgets).1.cmds ==> !c.Dispatch?
  {
  }

  lemma KeySwitchSend()
    ensures KeySwitch("ctrl+s") == SendCase
  {
  }

  /** ctrl+w passes every earlier branch of the switch and reaches the save branch. */
  lemma KeySwitchSave()
    ensures KeySwitch("ctrl+w") == SaveCase
  {
    SaveKeyMissesMovement();
    SaveKeyMissesEditing();
  }

  lemma SaveKeyMissesMovement()
    ensures !Matches("ctrl+w", DefaultBinding(Quit)) && !Matches("ctrl+w", DefaultBinding(Send))
    ensures !Matches("ctrl+w", DefaultBinding(Keys.NextTab)) && !Matches("ctrl+w", DefaultBinding(Keys.PrevTab))
    ensures !Matches("ctrl+w", DefaultBinding(NextFocus)) && !Matches("ctrl+w", DefaultBinding(PrevFocus))
    ensures !Matches("ctrl+w", DefaultBinding(TabKey))
  {
  }

  lemma SaveKeyMissesEditing()
    ensures "ctrl+w" != "left" && "ctrl+w" != "right"
    ensures !Matches("ctrl+w", DefaultBinding(Keys.AddHeader)) && !Matches("ctrl+w", DefaultBinding(Keys.ClearHeaders))
    ensures !Matches("ctrl+w", DefaultBinding(NextResponseTab)) && !Matches("ctrl+w", DefaultBinding(PrevResponseTab))
    ensures Matches("ctrl+w", DefaultBinding(SaveRequest))
  {
  }

  lemma KeySwitchNextTab()
    ensures KeySwitch("ctrl+right") == NextTabCase
  {
  }

  /**
    A failed send guard issues no request: the key falls through to the
    routing, so the receiving widget gets it, and only the widgets' values
    and cursors may change.
  */
  lemma BlockedSendIsInert(s: State, store: FileState, render: Renderer, widgets: Widgets)
    requires !CanSend(s)
    ensures var (t, f, o) := Step(s, store, Key("ctrl+s"), render, widgets);
      && f == store
      && Receiver(s, Key("ctrl+s")).Some?
      && t == Forward(s, Receiver(s, Key("ctrl+s")).value, Key("ctrl+s"), widgets)
      && o == Outcome(Receiver(s, Key("ctrl+s")), [WidgetCmd(Receiver(s, Key("ctrl+s")).value)])
      && t == s.(url := t.url, methodIndex := t.methodIndex, headerKey := t.headerKey,
                 headerValue := t.headerValue, body := t.body, requestIndex := t.requestIndex)
      && forall c :: c in o.cmds ==> !c.Dispatch?
  {
    KeySwitchSend();
    assert !Matches("ctrl+s", DefaultBinding(Enter));
    RouteEmitsNoDispatch(s, Key("ctrl+s"), [], widgets);
  }

  /** A send that passes the guard issues exactly the composed request and waits for it. */
  lemma SendDispatchesComposedRequest(s: State, store: FileState, render: Renderer, widgets: Widgets)
    requires CanSend(s)
    ensures Step(s, store, Key("ctrl+s"), render, widgets) ==
      (Sent(s), store, Outcome(None, [SpinnerFrame, Dispatch(Compose(s))]))
  {
    KeySwitchSend();
  }

  /** The quit keys end the program from every screen, even while a text field is being edited. */
  lemma QuitKeyWinsOverTyping(s: State, store: FileState, render: Renderer, widgets: Widgets)
    ensures Step(s, store, Key("q"), render, widgets) == (s, store, Outcome(None, [QuitProgram]))
  {
  }

  /** Saving changes the file only, never the session. */
  lemma SaveLeavesSessionUnchanged(s: State, store: FileState, render: Renderer, widgets: Widgets)
    ensures var (t, f, o) := Step(s, store, Key("ctrl+w"), render, widgets);
      t == s && o == Outcome(None, []) && (s.url == "" ==> f == store)
  {
    KeySwitchSave();
  }

  /**
    The session does not keep every wait on the response screen: NextTab
    during a request leaves it for the URL screen while the request is
    still in flight.
  */
  lemma LoadingOutsideResponseTab(s: State, store: FileState, render: Renderer, widgets: Widgets)
    requires CanSend(s)
    ensures var (t, f, o) := Step(s, store, Key("ctrl+s"), render, widgets);
      var (u, g, p) := Step(t, f, Key("ctrl+right"), render, widgets);
      u.loading && u.activeTab == UrlTab
  {
    KeySwitchSend();
    KeySwitchNextTab();
    var (t, f, o) := Step(s, store, Key("ctrl+s"), render, widgets);
    assert t == Sent(s);
    var t' := KeyEffect(t, KeySwitch("ctrl+right"));
    assert t' == NextTab(t);
    assert t'.activeTab == UrlTab && t'.focused == 0;
  }

  // ---------------------------------------------------------------------
  // Runs of events

  /** The state, file and commands after a sequence of events. */
  function Run(s: State, store: FileState, evs: seq<Event>, render: Renderer, widgets: Widgets): (State, FileState, seq<Cmd>)
    decreases |evs|
  {
    if evs == [] then (s, store, [])
    else
      var (t, f, o) := Step(s, store, evs[0], render, widgets);
      var (u, g, cs) := Run(t, f, evs[1..], render, widgets);
      (u, g, o.cmds + cs)
  }

  function Dispatches(cs: seq<Cmd>): nat {
    if cs == [] then 0 else (if cs[0].Dispatch? then 1 else 0) + Dispatches(cs[1..])
  }

  function Arrivals(evs: seq<Event>): nat {
    if evs == [] then 0 else (if evs[0].Arrived? then 1 else 0) + Arrivals(evs[1..])
  }

  function Idle(s: State): nat {
    if s.loading then 0 else 1
  }

  lemma {:induction false} DispatchesAppend(a: seq<Cmd>, b: seq<Cmd>)
    ensures Dispatches(a + b) == Dispatches(a) + Dispatches(b)
    decreases |a|
  {
    if a == [] {
      assert a + b == b;
    } else {
      DispatchesAppend(a[1..], b);
      assert (a + b)[0] == a[0];
      assert (a + b)[1..] == a[1..] + b;
    }
  }

  lemma NoDispatchCounted(cs: seq<Cmd>)
    requires forall c :: c in cs ==> !c.Dispatch?
    ensures Dispatches(cs) == 0
  {
  }

  /** One step dispatches at most one request, only when idle, and leaves the session waiting. */
  lemma StepDispatchAccounting(s: State, store: FileState, ev: Event, render: Renderer, widgets: Widgets)
    ensures var (t, f, o) := Step(s, store, ev, render, widgets);
      Dispatches(o.cmds) + Idle(t) <= (if ev.Arrived? then 1 else 0) + Idle(s)
  {
    var (t, f, o) := Step(s, store, ev, render, widgets);
    match ev
    case WindowSize(_, _) =>
    case Arrived(_) =>
    case SpinnerTick =>
      RouteEmitsNoDispatch(s, ev, if s.loading then [SpinnerFrame] else [], widgets);
      NoDispatchCounted(o.cmds);
      RouteKeepsLoading(s, ev, if s.loading then [SpinnerFrame] else [], widgets);
    case Key(k) =>
      KeyDispatchAccounting(s, store, k, render, widgets);
  }

  /** The send command list, the spinner then the request, dispatches once. */
  lemma SendDispatchesOnce(r: HttpClient.Request)
    ensures Dispatches([SpinnerFrame, Dispatch(r)]) == 1
  {
    var cs := [SpinnerFrame, Dispatch(r)];
    assert cs[1..] == [Dispatch(r)];
    assert cs[1..][1..] == [];
    assert Dispatches(cs[1..]) == 1 + Dispatches(cs[1..][1..]);
  }

  lemma KeyDispatchAccounting(s: State, store: FileState, k: string, render: Renderer, widgets: Widgets)
    ensures var (t, f, o) := Step(s, store, Key(k), render, widgets);
      Dispatches(o.cmds) + Idle(t) <= Idle(s)
  {
    var (t, f, o) := Step(s, store, Key(k), render, widgets);
    var c := KeySwitch(k);
    if c == QuitCase {
      assert Dispatches([QuitProgram]) == 0;
    } else if c == SendCase && CanSend(s) {
      SendDispatchesOnce(Compose(s));
    } else if c == SaveCase || c == LoadCase {
    } else {
      RouteEmitsNoDispatch(KeyEffect(s, c), Key(k), [], widgets);
      NoDispatchCounted(o.cmds);
      RouteKeepsLoading(KeyEffect(s, c), Key(k), [], widgets);
    }
  }

  lemma RouteKeepsLoading(s: State, ev: Event, cmds: seq<Cmd>, widgets: Widgets)
    ensures Route(s, ev, cmds, widgets).0.loading == s.loading
  {
  }

  /**
    At most one request is ever in flight: over any run, the requests
    dispatched never exceed the responses received, plus one when the run
    starts idle.
  */
  lemma {:induction false} AtMostOneRequestInFlight(s: State, store: FileState, evs: seq<Event>, render: Renderer, widgets: Widgets)
    ensures var (u, g, cs) := Run(s, store, evs, render, widgets);
      Dispatches(cs) + Idle(u) <= Arrivals(evs) + Idle(s)
    decreases |evs|
  {
    if evs != [] {
      var (t, f, o) := Step(s, store, evs[0], render, widgets);
      StepDispatchAccounting(s, store, evs[0], render, widgets);
      AtMostOneRequestInFlight(t, f, evs[1..], render, widgets);
      var (u, g, cs) := Run(t, f, evs[1..], render, widgets);
      DispatchesAppend(o.cmds, cs);
    }
  }
}
