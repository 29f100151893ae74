/** The session's enumerations and the saved-request record. */
module Types {
  import opened Text

  /** The five screens, in ordinal order 0 to 4. */
  datatype Tab = UrlTab | HeadersTab | BodyTab | ResponseTab | LoadRequestTab

  function TabOrdinal(t: Tab): (n: nat)
    ensures n < 5
  {
    match t
    case UrlTab => 0
    case HeadersTab => 1
    case BodyTab => 2
    case ResponseTab => 3
    case LoadRequestTab => 4
  }

  /** The conversion Tab(n) for an ordinal in range. */
  function TabAt(n: nat): Tab
    requires n < 5
  {
    if n == 0 then UrlTab
    else if n == 1 then HeadersTab
    else if n == 2 then BodyTab
    else if n == 3 then ResponseTab
    else LoadRequestTab
  }

  /** Ordinals and tabs are in one-to-one correspondence. */
  lemma TabOrdinalRoundTrip(t: Tab, n: nat)
    requires n < 5
    ensures TabAt(TabOrdinal(t)) == t
    ensures TabOrdinal(TabAt(n)) == n
  {
  }

  /** The two views of the response screen, Body = 0 and Headers = 1. */
  datatype SubTab = BodySubTab | HeadersSubTab

  function SubTabOrdinal(t: SubTab): (n: nat)
    ensures n < 2
  {
    match t
    case BodySubTab => 0
    case HeadersSubTab => 1
  }

  function SubTabAt(n: nat): SubTab
    requires n < 2
  {
    if n == 0 then BodySubTab else HeadersSubTab
  }

  lemma SubTabOrdinalRoundTrip(t: SubTab, n: nat)
    requires n < 2
    ensures SubTabAt(SubTabOrdinal(t)) == t
    ensures SubTabOrdinal(SubTabAt(n)) == n
  {
  }

  /** A request of the library, with exactly the five persisted fields. */
  datatype SavedRequest = SavedRequest(
    name: string,
    methodName: string,
    url: string,
    headers: map<string, string>,
    body: string)

  /** The text the list filter matches against: the name. */
  function FilterValue(r: SavedRequest): string {
    r.name
  }

  /** The list title: the name. */
  function Title(r: SavedRequest): string {
    r.name
  }

  /**
    The separator between method and URL in a list entry. The source file
    holds the UTF-8 bytes of a bullet read as Windows-1252 text, so the
    program shows these three characters rather than a bullet.
  */
  const Separator := " â€¢ "

  /** The list description: the method, the separator, then the URL. */
  function Description(r: SavedRequest): (d: string)
    ensures |d| == |r.methodName| + |Separator| + |r.url|
  {
    r.methodName + Separator + r.url
  }

  /** The description begins with the method and ends with the URL, both verbatim. */
  lemma DescriptionShowsMethodAndUrl(r: SavedRequest)
    ensures HasPrefix(Description(r), r.methodName)
    ensures HasSuffix(Description(r), r.url)
    ensures Description(r)[|r.methodName|..|r.methodName| + |Separator|] == Separator
  {
    var d := Description(r);
    assert d[..|r.methodName|] == r.methodName;
    assert d[|d| - |r.url|..] == r.url;
  }
}
