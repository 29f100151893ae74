/**
  The `.quest` file in the working directory, which holds the request
  library. Its contents are abstracted to what reading it yields: nothing,
  text that does not decode, or a decoded list of saved requests.
*/
module Store {
  import opened Types

  datatype FileState = Missing | Unparseable | Stored(requests: seq<SavedRequest>)

  /** loadRequestsFromFile: the stored list, or an empty list when the file is missing or does not decode. */
  function LoadAll(f: FileState): (rs: seq<SavedRequest>)
    ensures f.Stored? ==> rs == f.requests
    ensures !f.Stored? ==> rs == []
  {
    if f.Stored? then f.requests else []
  }

  /** The file holding the library; every save replaces its whole contents. */
  class QuestFile {
    var content: FileState

    constructor (initial: FileState)
      ensures content == initial
    {
      content := initial;
    }

    /** loadRequestsFromFile */
    method Load() returns (rs: seq<SavedRequest>)
      ensures rs == LoadAll(content)
    {
      match content
      case Stored(requests) => rs := requests;
      case Missing => rs := [];
      case Unparseable => rs := [];
    }

    /** saveRequestsToFile: the list, encoded, becomes the whole file. */
    method Save(rs: seq<SavedRequest>)
      modifies this
      ensures content == Stored(rs)
    {
      content := Stored(rs);
    }
  }

  /**
    After a save, a load yields exactly the list saved. With the encoding
    abstracted to the decoded list this holds by definition; it records
    that loading reads back the very contents saving wrote.
  */
  lemma SaveThenLoad(rs: seq<SavedRequest>)
    ensures LoadAll(Stored(rs)) == rs
  {
  }

  /**
    Appending to an unreadable library starts it afresh: the file then holds
    the one new entry and the old text is gone.
  */
  lemma AppendToUnreadableDropsIt(f: FileState, r: SavedRequest)
    requires !f.Stored?
    ensures LoadAll(Stored(LoadAll(f) + [r])) == [r]
  {
  }
}
