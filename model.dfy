/**
  The workbench's Model as an object whose fields Update changes one after
  another, as the handlers do. Every method is proved to move the object
  exactly as the matching function of module Session moves a State.
*/
module Workbench {
  import opened Wrappers
  import opened Styles
  import opened Types
  import opened Keys
  import opened Store
  import HttpClient
  import opened Session

  /** A copy of a header map, built one entry at a time. */
  method CopyHeaders(source: map<string, string>) returns (copy: map<string, string>)
    ensures copy == source
  {
    copy := map[];
    var rest := source.Keys;
    while rest != {}
      invariant rest <= source.Keys
      invariant copy.Keys == source.Keys - rest
      invariant forall k :: k in copy ==> copy[k] == source[k]
      decreases rest
    {
      var k :| k in rest;
      copy := copy[k := source[k]];
      rest := rest - {k};
    }
  }

  class Model {
    var width: int
    var height: int
    var url: string
    var methodIndex: nat
    var headerKey: string
    var headerValue: string
    var body: string
    var focusedFields: set<Widget>
    var requestIndex: nat
    var showFullHelp: bool
    var activeTab: Tab
    var responseSubTab: SubTab
    var focused: nat
    var loading: bool
    var response: string
    var statusCode: int
    var responseTime: int
    var responseHeaders: map<string, string>
    var requestHeaders: map<string, string>
    var showingLoadDialog: bool
    var savedRequests: seq<SavedRequest>

    /** The `.quest` file, the terminal's renderer and the widgets' behaviour. */
    const file: QuestFile
    const render: Renderer
    const widgets: Widgets

    /** The values of the fields, as a Session.State. */
    function Snapshot(): State
      reads this
    {
      State(width, height, url, methodIndex, headerKey, headerValue, body, focusedFields, requestIndex,
            showFullHelp, activeTab, responseSubTab, focused, loading, response, statusCode, responseTime,
            responseHeaders, requestHeaders, showingLoadDialog, savedRequests)
    }

    predicate Valid()
      reads this
    {
      Session.Valid(Snapshot())
    }

    /** NewModel. */
    constructor (file: QuestFile, render: Renderer, widgets: Widgets)
      ensures Snapshot() == Initial && Valid()
      ensures this.file == file && this.render == render && this.widgets == widgets
    {
      width, height := 0, 0;
      url, methodIndex, headerKey, headerValue, body := "", 0, "", "", "";
      focusedFields := {UrlField};
      requestIndex, showFullHelp := 0, false;
      activeTab, responseSubTab, focused, loading := UrlTab, BodySubTab, 0, false;
      response, statusCode, responseTime := "", 0, 0;
      responseHeaders, requestHeaders := map[], map[];
      showingLoadDialog, savedRequests := false, [];
      this.file, this.render, this.widgets := file, render, widgets;
      InitialValid();
    }

    /** updateFocus: blur the four text fields, then focus the one for the tab and focus index. */
    method UpdateFocus()
      modifies this
      ensures Snapshot() == Session.UpdateFocus(old(Snapshot()))
    {
      focusedFields := {};
      match activeTab
      case UrlTab =>
        if focused == 0 {
          focusedFields := focusedFields + {UrlField};
        }
      case HeadersTab =>
        if focused == 0 {
          focusedFields := focusedFields + {HeaderKeyField};
        } else {
          focusedFields := focusedFields + {HeaderValueField};
        }
      case BodyTab =>
        focusedFields := focusedFields + {BodyArea};
      case _ =>
    }

    /** The position of the first method item named like the selected method, or 0. */
    method CurrentMethodPosition() returns (current: nat)
      ensures current == CurrentMethodIndex(Snapshot())
    {
      var selected := SelectedMethod(methodIndex);
      current := 0;
      var i := 0;
      while i < |MethodNames|
        invariant 0 <= i <= |MethodNames|
        invariant forall j :: 0 <= j < i ==> MethodNames[j] != selected
      {
        if MethodNames[i] == selected {
          current := i;
          break;
        }
        i := i + 1;
      }
      CurrentMethodIndexFindsName(Snapshot());
    }

    /** The "left" and "right" cases: move the method cursor on the method list. */
    method MoveMethod(right: bool)
      modifies this
      ensures right ==> Snapshot() == MethodRight(old(Snapshot()))
      ensures !right ==> Snapshot() == MethodLeft(old(Snapshot()))
    {
      if activeTab == UrlTab && focused == 1 {
        var current := CurrentMethodPosition();
        if right {
          methodIndex := (current + 1) % |MethodNames|;
        } else {
          methodIndex := (current - 1 + |MethodNames|) % |MethodNames|;
        }
      }
    }

    method NextTab()
      modifies this
      ensures Snapshot() == Session.NextTab(old(Snapshot()))
    {
      if activeTab == LoadRequestTab {
        LeaveLibrary(UrlTab);
      } else {
        activeTab := TabAt((TabOrdinal(activeTab) + 1) % 4);
      }
      FocusFirstField();
    }

    method PrevTab()
      modifies this
      ensures Snapshot() == Session.PrevTab(old(Snapshot()))
    {
      if activeTab == LoadRequestTab {
        LeaveLibrary(ResponseTab);
      } else {
        activeTab := TabAt((TabOrdinal(activeTab) + 3) % 4);
      }
      FocusFirstField();
    }

    /** Close the library dialog and show another screen. */
    method LeaveLibrary(target: Tab)
      modifies this
      ensures Snapshot() == old(Snapshot()).(activeTab := target, showingLoadDialog := false)
    {
      activeTab := target;
      showingLoadDialog := false;
    }

    /** Reset the focus index and give the focus to the screen's first field. */
    method FocusFirstField()
      modifies this
      ensures Snapshot() == Session.UpdateFocus(old(Snapshot()).(focused := 0))
    {
      focused := 0;
      UpdateFocus();
    }

    /** NextFocus, PrevFocus and Tab. */
    method ToggleFocus()
      modifies this
      ensures Snapshot() == Session.ToggleFocus(old(Snapshot()))
    {
      match activeTab {
        case UrlTab => focused := (focused + 1) % 2;
        case HeadersTab => focused := (focused + 1) % 2;
        case _ =>
      }
      UpdateFocus();
    }

    method AddHeader()
      modifies this
      ensures Snapshot() == Session.AddHeader(old(Snapshot()))
    {
      if activeTab == HeadersTab && headerKey != "" && headerValue != "" {
        requestHeaders := requestHeaders[headerKey := headerValue];
        ClearScratchHeader();
        FocusHeaderKey();
      }
    }

    /** Empty the two header fields. */
    method ClearScratchHeader()
      modifies this
      ensures Snapshot() == old(Snapshot()).(headerKey := "", headerValue := "")
    {
      headerKey := "";
      headerValue := "";
    }

    /** Focus the header name field and blur the value field. */
    method FocusHeaderKey()
      modifies this
      ensures Snapshot() == old(Snapshot()).(focusedFields := old(focusedFields) + {HeaderKeyField} - {HeaderValueField}, focused := 0)
    {
      focusedFields := focusedFields + {HeaderKeyField} - {HeaderValueField};
      focused := 0;
    }

    method ClearHeaders()
      modifies this
      ensures Snapshot() == Session.ClearHeaders(old(Snapshot()))
    {
      if activeTab == HeadersTab {
        requestHeaders := map[];
      }
    }

    /** NextResponseTab and PrevResponseTab. */
    method ToggleSubTab()
      modifies this
      ensures Snapshot() == Session.ToggleSubTab(old(Snapshot()))
    {
      if activeTab == ResponseTab {
        responseSubTab := SubTabAt((SubTabOrdinal(responseSubTab) + 1) % 2);
      }
    }

    method Escape()
      modifies this
      ensures Snapshot() == Session.Escape(old(Snapshot()))
    {
      if activeTab == LoadRequestTab {
        LeaveLibrary(UrlTab);
        FocusFirstField();
      }
    }

    /** sendRequest: wait on the response screen and hand the composed request to the runtime. */
    method SendRequest() returns (cmds: seq<Cmd>)
      modifies this
      ensures Snapshot() == Sent(old(Snapshot()))
      ensures cmds == [SpinnerFrame, Dispatch(Compose(old(Snapshot())))]
    {
      loading := true;
      activeTab := ResponseTab;
      var req := HttpClient.Request(SelectedMethod(methodIndex), url, requestHeaders, body);
      cmds := [SpinnerFrame, Dispatch(req)];
    }

    /** saveCurrentRequest: append an entry to the file's list; the session is untouched. */
    method SaveCurrentRequest()
      modifies file
      ensures file.content == SaveCurrent(Snapshot(), old(file.content))
    {
      if url == "" {
        return;
      }
      var headers := CopyHeaders(requestHeaders);
      var name := SelectedMethod(methodIndex);
      var request := SavedRequest(name + " " + url, name, url, headers, body);
      var requests := file.Load();
      requests := requests + [request];
      file.Save(requests);
    }

    /** showLoadRequestDialog: read the file's list and show the library. */
    method ShowLoadRequestDialog()
      modifies this
      ensures Snapshot() == ShowDialog(old(Snapshot()), file.content)
    {
      var requests := file.Load();
      savedRequests := requests;
      activeTab := LoadRequestTab;
      showingLoadDialog := true;
      focused := 0;
    }

    /** loadSelectedRequest: put the entry's request back into the input screens. */
    method LoadSelectedRequest(request: SavedRequest)
      modifies this
      ensures Snapshot() == LoadSelected(old(Snapshot()), request)
    {
      FillInputs(request.url, request.body);
      SelectMethodNamed(request.methodName);
      requestHeaders := CopyHeaders(request.headers);
      LeaveLibrary(UrlTab);
      FocusFirstField();
    }

    /** Set the URL field and the body area. */
    method FillInputs(newUrl: string, newBody: string)
      modifies this
      ensures Snapshot() == old(Snapshot()).(url := newUrl, body := newBody)
    {
      url := newUrl;
      body := newBody;
    }

    /** Select the first method item with the given name; with none, the cursor stays. */
    method SelectMethodNamed(name: string)
      modifies this
      ensures Snapshot() == old(Snapshot()).(methodIndex := LoadedMethodIndex(old(methodIndex), name))
    {
      var i := 0;
      while i < |MethodNames|
        invariant 0 <= i <= |MethodNames|
        invariant forall j :: 0 <= j < i ==> MethodNames[j] != name
      {
        if MethodNames[i] == name {
          methodIndex := i;
          return;
        }
        i := i + 1;
      }
    }

    /** A ResponseMessage folded into the session. */
    method ReceiveResponse(m: HttpClient.Response)
      modifies this
      ensures Snapshot() == Fold(old(Snapshot()), m, render)
    {
      loading := false;
      RecordExchange(m.statusCode, m.responseTime);
      responseHeaders := m.headers;
      if m.error.Some? {
        ShowResponse(render(ErrorStyle, "Error: " + m.error.value));
      } else {
        ShowResponse(m.body);
      }
    }

    /** Keep the status code and the time of an exchange. */
    method RecordExchange(code: int, time: int)
      modifies this
      ensures Snapshot() == old(Snapshot()).(statusCode := code, responseTime := time)
    {
      statusCode := code;
      responseTime := time;
    }

    /** Put a text in the response view and show the response screen. */
    method ShowResponse(text: string)
      modifies this
      ensures Snapshot() == old(Snapshot()).(response := text, activeTab := ResponseTab)
    {
      response := text;
      activeTab := ResponseTab;
    }

    /** A widget's own update, reduced to the values the session keeps. */
    method Forward(w: Widget, ev: Event)
      modifies this
      ensures Snapshot() == Session.Forward(old(Snapshot()), w, ev, widgets)
    {
      if w == MethodList {
        methodIndex := widgets.moveCursor(w, ev, methodIndex, |MethodNames|);
      } else if w == RequestList {
        requestIndex := widgets.moveCursor(w, ev, requestIndex, |savedRequests|);
      } else if w in {UrlField, HeaderKeyField, HeaderValueField, BodyArea} {
        EditText(w, ev);
      }
    }

    /** A text widget edits its value only while it holds the focus. */
    method EditText(w: Widget, ev: Event)
      requires w in {UrlField, HeaderKeyField, HeaderValueField, BodyArea}
      modifies this
      ensures Snapshot() == Session.Forward(old(Snapshot()), w, ev, widgets)
    {
      if w in focusedFields {
        match w
        case UrlField => url := widgets.editText(w, ev, url);
        case HeaderKeyField => headerKey := widgets.editText(w, ev, headerKey);
        case HeaderValueField => headerValue := widgets.editText(w, ev, headerValue);
        case BodyArea => body := widgets.editText(w, ev, body);
      }
    }

    /** The routing switch after the key switch. */
    method Route(ev: Event, cmds: seq<Cmd>) returns (outcome: Outcome)
      modifies this
      ensures (Snapshot(), outcome) == Session.Route(old(Snapshot()), ev, cmds, widgets)
    {
      match activeTab
      case UrlTab =>
        if focused == 0 {
          Forward(UrlField, ev);
          outcome := Outcome(Some(UrlField), cmds + [WidgetCmd(UrlField)]);
        } else if ev.Key? && (ev.key == "left" || ev.key == "right") {
          outcome := Outcome(None, cmds);
        } else {
          Forward(MethodList, ev);
          outcome := Outcome(Some(MethodList), cmds + [WidgetCmd(MethodList)]);
        }
      case HeadersTab =>
        if focused == 0 {
          Forward(HeaderKeyField, ev);
          outcome := Outcome(Some(HeaderKeyField), cmds + [WidgetCmd(HeaderKeyField)]);
        } else {
          Forward(HeaderValueField, ev);
          outcome := Outcome(Some(HeaderValueField), cmds + [WidgetCmd(HeaderValueField)]);
        }
      case BodyTab =>
        Forward(BodyArea, ev);
        outcome := Outcome(Some(BodyArea), cmds + [WidgetCmd(BodyArea)]);
      case ResponseTab =>
        var view := if responseSubTab == BodySubTab then ResponseBodyView else ResponseHeadersView;
        Forward(view, ev);
        outcome := Outcome(Some(view), cmds + [WidgetCmd(view)]);
      case LoadRequestTab =>
        Forward(RequestList, ev);
        outcome := Outcome(Some(RequestList), cmds + [WidgetCmd(RequestList)]);
        if ev.Key? && Matches(ev.key, DefaultBinding(Enter)) && requestIndex < |savedRequests| {
          LoadSelectedRequest(savedRequests[requestIndex]);
          outcome := Outcome(Some(RequestList), []);
        }
    }

    /** The key switch, for the branches that go on to the routing. */
    method ApplyKey(c: KeyCase)
      modifies this
      ensures Snapshot() == KeyEffect(old(Snapshot()), c)
    {
      match c
      case NextTabCase => NextTab();
      case PrevTabCase => PrevTab();
      case NextFocusCase => ToggleFocus();
      case PrevFocusCase => ToggleFocus();
      case TabCase => ToggleFocus();
      case LeftArrowCase => MoveMethod(false);
      case RightArrowCase => MoveMethod(true);
      case AddHeaderCase => AddHeader();
      case ClearHeadersCase => ClearHeaders();
      case NextResponseTabCase => ToggleSubTab();
      case PrevResponseTabCase => ToggleSubTab();
      case HelpCase => showFullHelp := !showFullHelp;
      case EscCase => Escape();
      case _ =>
    }

    /** The key switch of Update, then the routing for the keys it does not consume. */
    method HandleKey(k: string) returns (outcome: Outcome)
      modifies this, file
      ensures (Snapshot(), file.content, outcome) == Step(old(Snapshot()), old(file.content), Key(k), render, widgets)
    {
      var c := KeySwitch(k);
      if c == QuitCase {
        outcome := Outcome(None, [QuitProgram]);
      } else if c == SendCase && !loading && url != "" {
        var cmds := SendRequest();
        outcome := Outcome(None, cmds);
      } else if c == SaveCase {
        SaveCurrentRequest();
        outcome := Outcome(None, []);
      } else if c == LoadCase {
        ShowLoadRequestDialog();
        outcome := Outcome(None, []);
      } else {
        ApplyKey(c);
        outcome := Route(Key(k), []);
      }
    }

    /** Update: one event, handled in the order of the source's switches. */
    method Update(ev: Event) returns (outcome: Outcome)
      modifies this, file
      ensures (Snapshot(), file.content, outcome) == Step(old(Snapshot()), old(file.content), ev, render, widgets)
      ensures old(Valid()) && CursorsStayInRange(widgets) ==> Valid()
    {
      ghost var before := Snapshot();
      ghost var stored := file.content;
      match ev {
      case WindowSize(w, h) =>
        width := w;
        height := h;
        outcome := Outcome(None, []);
      case Arrived(m) =>
        ReceiveResponse(m);
        outcome := Outcome(None, []);
      case SpinnerTick =>
        var cmds := if loading then [SpinnerFrame] else [];
        outcome := Route(ev, cmds);
      case Key(k) =>
        outcome := HandleKey(k);
      }
      if Session.Valid(before) && CursorsStayInRange(widgets) {
        StepPreservesValid(before, stored, ev, render, widgets);
      }
    }
  }
}
