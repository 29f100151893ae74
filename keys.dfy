/** The key table: which key strings each action is bound to, and the two help layouts. */
module Keys {
  import opened Wrappers

  /** A key binding: the key strings that trigger it and its help entry. */
  datatype Binding = Binding(keys: seq<string>, helpKey: string, helpText: string)

  /** The nineteen actions of the key map, in declaration order. */
  datatype Action =
    | Up | Down | Left | Right | Enter | TabKey | Quit | Send | Help
    | NextTab | PrevTab | AddHeader | ClearHeaders | SaveRequest | LoadRequest
    | NextResponseTab | PrevResponseTab | NextFocus | PrevFocus

  const Actions: seq<Action> := [
    Up, Down, Left, Right, Enter, TabKey, Quit, Send, Help,
    NextTab, PrevTab, AddHeader, ClearHeaders, SaveRequest, LoadRequest,
    NextResponseTab, PrevResponseTab, NextFocus, PrevFocus
  ]

  /** A key map gives every action its binding. */
  type KeyMap = Action -> Binding

  /** The default bindings. */
  function DefaultBinding(a: Action): Binding {
    match a
    case Up => Binding(["up", "k"], "↑/k", "move up")
    case Down => Binding(["down", "j"], "↓/j", "move down")
    case Left => Binding(["left", "h"], "←/h", "move left")
    case Right => Binding(["right", "l"], "→/l", "move right")
    case Enter => Binding(["enter"], "enter", "confirm")
    case TabKey => Binding(["tab"], "tab", "next field")
    case NextTab => Binding(["ctrl+right", "ctrl+l"], "ctrl+→", "next tab")
    case PrevTab => Binding(["ctrl+left", "ctrl+h"], "ctrl+←", "prev tab")
    case Send => Binding(["ctrl+s"], "ctrl+s", "send request")
    case AddHeader => Binding(["ctrl+a"], "ctrl+a", "add header")
    case ClearHeaders => Binding(["ctrl+x"], "ctrl+x", "clear headers")
    case SaveRequest => Binding(["ctrl+w"], "ctrl+w", "save request")
    case LoadRequest => Binding(["ctrl+r"], "ctrl+r", "load request")
    case NextResponseTab => Binding(["shift+right", "shift+l"], "shift+→", "next response tab")
    case PrevResponseTab => Binding(["shift+left", "shift+h"], "shift+←", "prev response tab")
    case NextFocus => Binding(["alt+right", "alt+l"], "alt+→", "next focus")
    case PrevFocus => Binding(["alt+left", "alt+h"], "alt+←", "prev focus")
    case Help => Binding(["?"], "?", "toggle help")
    case Quit => Binding(["q", "ctrl+c"], "q", "quit")
  }

  const DefaultKeys: KeyMap := DefaultBinding

  /** key.Matches: the key string is one of the binding's keys. */
  predicate Matches(key: string, b: Binding) {
    key in b.keys
  }

  /** The short help line. */
  function ShortHelp(k: KeyMap): (h: seq<Binding>)
    ensures |h| == 6
  {
    [k(NextTab), k(Send), k(SaveRequest), k(LoadRequest), k(Help), k(Quit)]
  }

  /** The actions the full help shows, in seven columns. */
  const FullHelpLayout: seq<seq<Action>> := [
    [Up, Down, Left, Right],
    [TabKey, NextTab, PrevTab],
    [NextFocus, PrevFocus],
    [NextResponseTab, PrevResponseTab],
    [Send, AddHeader, ClearHeaders, Enter],
    [SaveRequest, LoadRequest],
    [Help, Quit]
  ]

  function MapActions(k: KeyMap, acts: seq<Action>): (r: seq<Binding>)
    ensures |r| == |acts| && forall i :: 0 <= i < |acts| ==> r[i] == k(acts[i])
  {
    if acts == [] then [] else [k(acts[0])] + MapActions(k, acts[1..])
  }

  /** The full help: the bindings of the layout's actions, column by column. */
  function FullHelp(k: KeyMap): (h: seq<seq<Binding>>)
    ensures |h| == |FullHelpLayout|
    ensures forall c :: 0 <= c < |h| ==> h[c] == MapActions(k, FullHelpLayout[c])
    ensures forall a :: HelpCell(a).0 < |h| && HelpCell(a).1 < |h[HelpCell(a).0]| && h[HelpCell(a).0][HelpCell(a).1] == k(a)
  {
    var h := seq(|FullHelpLayout|, c requires 0 <= c < |FullHelpLayout| => MapActions(k, FullHelpLayout[c]));
    CellsShowActions(k, h);
    h
  }

  /** Columns built from the layout show each action's binding at that action's cell. */
  lemma CellsShowActions(k: KeyMap, h: seq<seq<Binding>>)
    requires |h| == |FullHelpLayout| && forall c :: 0 <= c < |h| ==> h[c] == MapActions(k, FullHelpLayout[c])
    ensures forall a :: HelpCell(a).0 < |h| && HelpCell(a).1 < |h[HelpCell(a).0]| && h[HelpCell(a).0][HelpCell(a).1] == k(a)
  {
    forall a ensures HelpCell(a).0 < |h| && HelpCell(a).1 < |h[HelpCell(a).0]| && h[HelpCell(a).0][HelpCell(a).1] == k(a) {
      LayoutCell(a);
    }
  }

  /** The layout holds each action at its cell. */
  lemma LayoutCell(a: Action)
    ensures var (c, r) := HelpCell(a);
      c < |FullHelpLayout| && r < |FullHelpLayout[c]| && FullHelpLayout[c][r] == a
  {
  }

  /** The column and row at which the full help shows an action. */
  function HelpCell(a: Action): (nat, nat) {
    match a
    case Up => (0, 0)
    case Down => (0, 1)
    case Left => (0, 2)
    case Right => (0, 3)
    case TabKey => (1, 0)
    case NextTab => (1, 1)
    case PrevTab => (1, 2)
    case NextFocus => (2, 0)
    case PrevFocus => (2, 1)
    case NextResponseTab => (3, 0)
    case PrevResponseTab => (3, 1)
    case Send => (4, 0)
    case AddHeader => (4, 1)
    case ClearHeaders => (4, 2)
    case Enter => (4, 3)
    case SaveRequest => (5, 0)
    case LoadRequest => (5, 1)
    case Help => (6, 0)
    case Quit => (6, 1)
  }

  /** Every action appears in the full help, at its cell. */
  lemma FullHelpShowsEveryAction(k: KeyMap, a: Action)
    ensures var (c, r) := HelpCell(a);
      c < |FullHelpLayout| && r < |FullHelpLayout[c]| && FullHelpLayout[c][r] == a && FullHelp(k)[c][r] == k(a)
  {
  }

  /** No action appears twice: the action in any cell has that cell as its own. */
  lemma FullHelpShowsEachActionOnce(c: nat, r: nat)
    requires c < |FullHelpLayout| && r < |FullHelpLayout[c]|
    ensures HelpCell(FullHelpLayout[c][r]) == (c, r)
  {
  }

  /** The short help shows, in order, next tab, send, save, load, help and quit. */
  lemma ShortHelpOrder()
    ensures ShortHelp(DefaultKeys) == MapActions(DefaultKeys, [NextTab, Send, SaveRequest, LoadRequest, Help, Quit])
    ensures ShortHelp(DefaultKeys)[0].keys == ["ctrl+right", "ctrl+l"]
    ensures ShortHelp(DefaultKeys)[5].keys == ["q", "ctrl+c"]
  {
  }

  /**
    The first action, in declaration order, whose default binding holds the
    key string; none when no binding holds it.
  */
  function Classify(key: string): (r: Option<Action>)
    ensures r.Some? ==> Matches(key, DefaultBinding(r.value))
    ensures r.None? ==> forall a :: !Matches(key, DefaultBinding(a))
  {
    ActionsListed();
    ClassifyFrom(key, Actions)
  }

  /** The action list names every action. */
  lemma ActionsListed()
    ensures forall a :: a in Actions
  {
    forall a ensures a in Actions {
      match a
      case Up => case Down => case Left => case Right => case Enter => case TabKey =>
      case Quit => case Send => case Help => case NextTab => case PrevTab =>
      case AddHeader => case ClearHeaders => case SaveRequest => case LoadRequest =>
      case NextResponseTab => case PrevResponseTab => case NextFocus => case PrevFocus =>
    }
  }

  function ClassifyFrom(key: string, acts: seq<Action>): (r: Option<Action>)
    ensures r.Some? ==> r.value in acts && Matches(key, DefaultBinding(r.value))
    ensures r.None? ==> forall a :: a in acts ==> !Matches(key, DefaultBinding(a))
  {
    if acts == [] then None
    else if Matches(key, DefaultBinding(acts[0])) then Some(acts[0])
    else ClassifyFrom(key, acts[1..])
  }

  /** Two different actions never share a key string. */
  lemma BindingsDisjoint(a: Action, b: Action, key: string)
    requires a != b
    ensures !(Matches(key, DefaultBinding(a)) && Matches(key, DefaultBinding(b)))
  {
    if a in {Up, Down, Left, Right, Enter, TabKey} {
      MovementKeysDisjoint(a, b, key);
    } else if a in {Quit, Send, Help, NextTab, PrevTab, AddHeader} {
      CommandKeysDisjoint(a, b, key);
    } else {
      OtherKeysDisjoint(a, b, key);
    }
  }

  lemma MovementKeysDisjoint(a: Action, b: Action, key: string)
    requires a in {Up, Down, Left, Right, Enter, TabKey} && a != b
    ensures !(Matches(key, DefaultBinding(a)) && Matches(key, DefaultBinding(b)))
  {
  }

  lemma CommandKeysDisjoint(a: Action, b: Action, key: string)
    requires a in {Quit, Send, Help, NextTab, PrevTab, AddHeader} && a != b
    ensures !(Matches(key, DefaultBinding(a)) && Matches(key, DefaultBinding(b)))
  {
  }

  lemma OtherKeysDisjoint(a: Action, b: Action, key: string)
    requires a in {ClearHeaders, SaveRequest, LoadRequest, NextResponseTab, PrevResponseTab, NextFocus, PrevFocus} && a != b
    ensures !(Matches(key, DefaultBinding(a)) && Matches(key, DefaultBinding(b)))
  {
  }

  /**
    Classifying a key string is a function: a key yields an action exactly
    when that action's binding holds it.
  */
  lemma ClassifyExact(key: string, a: Action)
    ensures Classify(key) == Some(a) <==> Matches(key, DefaultBinding(a))
  {
    var r := Classify(key);
    if Matches(key, DefaultBinding(a)) {
      assert a in Actions by {
        match a
        case _ =>
      }
      if r.Some? && r.value != a {
        BindingsDisjoint(a, r.value, key);
      }
    }
  }
}
