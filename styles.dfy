/**
  The colour theme: named colours, the text styles built from them, the
  method colour table and the status-code colour classifier. Applying a
  style to text is the job of the terminal renderer, which the model takes
  as a parameter of type Renderer.
*/
module Styles {
  import opened Text

  datatype Color =
    | HotPink | DarkGray | LightGray | Green | Red | Blue | Yellow | Purple | Orange | White | Black

  /** The hexadecimal value each named colour stands for. */
  function Hex(c: Color): string {
    match c
    case HotPink => "#FF06B7"
    case DarkGray => "#767676"
    case LightGray => "#C4C4C4"
    case Green => "#04B575"
    case Red => "#FF4757"
    case Blue => "#3742FA"
    case Yellow => "#FFA502"
    case Purple => "#9C88FF"
    case Orange => "#FF7675"
    case White => "#FFFFFF"
    case Black => "#000000"
  }

  /** A text style: the foreground colour and whether the text is bold. */
  datatype Style = Style(foreground: Color, bold: bool)

  /** What the terminal makes of a styled piece of text (escape codes or nothing at all). */
  type Renderer = (Style, string) -> string

  /** A renderer for a terminal without colour: every style leaves the text as it is. */
  function PlainRenderer(style: Style, text: string): string {
    text
  }

  const ErrorStyle := Style(Red, true)

  const MethodColors: map<string, Color> := map[
    "GET" := Green,
    "POST" := Blue,
    "PUT" := Yellow,
    "DELETE" := Red,
    "PATCH" := Purple,
    "HEAD" := LightGray,
    "OPTIONS" := DarkGray
  ]

  /** The colour of a status code: 2xx green, 3xx yellow, 4xx orange, 5xx and above red, the rest dark grey. */
  function StatusCodeColor(code: int): (c: Color)
    ensures c == Green <==> 200 <= code < 300
    ensures c == Yellow <==> 300 <= code < 400
    ensures c == Orange <==> 400 <= code < 500
    ensures c == Red <==> code >= 500
    ensures c == DarkGray <==> code < 200
  {
    if code >= 200 && code < 300 then Green
    else if code >= 300 && code < 400 then Yellow
    else if code >= 400 && code < 500 then Orange
    else if code >= 500 then Red
    else DarkGray
  }

  /** The colour StyledMethod uses: the table entry, or dark grey for a name the table lacks. */
  function MethodColor(name: string): (c: Color)
    ensures name in MethodColors ==> c == MethodColors[name]
    ensures name !in MethodColors ==> c == DarkGray
  {
    if name in MethodColors then MethodColors[name] else DarkGray
  }

  function StyledMethod(render: Renderer, name: string): string {
    render(Style(MethodColor(name), true), name)
  }

  /** A styled method name is the name itself once its styling is taken away. */
  lemma StyledMethodShowsName(name: string)
    ensures StyledMethod(PlainRenderer, name) == name
  {
  }

  function StyledStatusCode(render: Renderer, code: int): string {
    render(Style(StatusCodeColor(code), true), Decimal(code))
  }

  /** The seven known methods have their own colours; any other name is shown in dark grey. */
  lemma MethodColorTable(name: string)
    ensures MethodColor("GET") == Green && MethodColor("POST") == Blue
    ensures MethodColor("PUT") == Yellow && MethodColor("DELETE") == Red
    ensures MethodColor("PATCH") == Purple && MethodColor("HEAD") == LightGray
    ensures MethodColor("OPTIONS") == DarkGray
    ensures name !in {"GET", "POST", "PUT", "DELETE", "PATCH", "HEAD", "OPTIONS"} ==> MethodColor(name) == DarkGray
  {
  }

  /**
    A status code is shown as its decimal digits in bold, coloured by
    StatusCodeColor; with a colourless terminal the text reads back as the code.
  */
  lemma StyledStatusCodeShowsCode(render: Renderer, code: int)
    ensures StyledStatusCode(render, code) == render(Style(StatusCodeColor(code), true), Decimal(code))
    ensures DecimalValue(StyledStatusCode(PlainRenderer, code)) == code
  {
    DecimalRoundTrip(code);
  }
}
