/** Which journals the writer saves: it reads back what it is about to write, and refuses
    what its own reader would refuse. The longest state is "rollingBack". */
module JournalStore {
  import opened UpdateJournal
  import Utf8
  import Json
  import JsonReader
  import JsonPrint
  import JsonQuote
  import JournalCodec

  predicate Storable(j: Journal) {
    JsonReader.Parse(JournalCodec.SaveText(j)).Good?
  }

  /** How many bytes a journal takes. */
  function Size(j: Journal): nat {
    |JournalCodec.SaveText(j)|
  }

  /** A state is written as it is. */
  predicate Plain(state: string) {
    forall i :: 0 <= i < |state| ==> 'A' <= state[i] <= 'z' && state[i] != '\\'
  }

  lemma SplitText(j: Journal) returns (rest: string)
    requires Plain(j.state)
    ensures JournalCodec.SaveText(j) == "{\"schema\":" + ("1" + ",\"state\":\"" + j.state + "\"" + rest)
    ensures rest == ",\"files\":" + (JournalCodec.ListText(JournalCodec.EntriesJson(j.files))
      + if j.promoted == [] then "}" else ",\"promoted\":" + (JournalCodec.ListText(JournalCodec.CopiesJson(j.promoted)) + "}"))
  {
    hide JournalCodec.SaveText, JournalCodec.ListText, JournalCodec.EntriesJson, JournalCodec.CopiesJson;
    hide JsonQuote.QuoteChars;
    JournalCodec.JournalTextIs(j);
    JournalCodec.PlainQuote(j.state);
    rest := ",\"files\":" + (JournalCodec.ListText(JournalCodec.EntriesJson(j.files))
      + if j.promoted == [] then "}" else ",\"promoted\":" + (JournalCodec.ListText(JournalCodec.CopiesJson(j.promoted)) + "}"));
    Grouped(j.state, rest);
  }

  lemma Grouped(state: string, rest: string)
    ensures "{\"schema\":" + ("1" + (",\"state\":" + (("\"" + state + "\"") + rest))) == "{\"schema\":" + ("1" + ",\"state\":\"" + state + "\"" + rest)
  {
    assert ",\"state\":" + "\"" == ",\"state\":\"";
  }

  /** A change of state changes the text by the length of the state, and nothing else. */
  lemma StateSize(j: Journal, state: string)
    requires Plain(j.state) && Plain(state)
    ensures Size(j.(state := state)) == Size(j) - |j.state| + |state|
    ensures Utf8.Valid(JournalCodec.SaveText(j.(state := state))) <==> Utf8.Valid(JournalCodec.SaveText(j))
  {
    hide JournalCodec.SaveText, JournalCodec.ListText, JournalCodec.EntriesJson, JournalCodec.CopiesJson, Utf8.Valid;
    var a := SplitText(j);
    var b := SplitText(j.(state := state));
    assert a == b;
    HeadValid(j.state, a);
    HeadValid(state, a);
  }

  lemma HeadValid(state: string, rest: string)
    requires Plain(state)
    ensures Utf8.Valid("{\"schema\":" + ("1" + ",\"state\":\"" + state + "\"" + rest)) <==> Utf8.Valid(rest)
  {
    hide Utf8.Valid;
    var head := "{\"schema\":" + ("1" + ",\"state\":\"" + state + "\"");
    Utf8.AsciiValid(head);
    Utf8.ValidConcat(head, rest);
    assert head + rest == "{\"schema\":" + ("1" + ",\"state\":\"" + state + "\"" + rest);
  }

  /** A journal that meets the loader's rules is saved exactly when it is short enough and
      its names are UTF-8. */
  lemma StorableExactly(p: Policy, j: Journal)
    requires Accepted(p, j)
    ensures Storable(j) <==> Size(j) <= Json.MAX_BYTES && Utf8.Valid(JournalCodec.SaveText(j))
  {
    hide JsonReader.Parse, JsonPrint.Print, Utf8.Valid, JsonPrint.Printable, JsonPrint.Count;
    JournalCodec.JournalPrintable(j);
    JsonPrint.AcceptedPrint(JournalCodec.JournalJson(j));
  }

  /** What can be saved in one state can be saved in every state with no longer name. */
  lemma ShorterStorable(p: Policy, j: Journal, state: string)
    requires Accepted(p, j) && Storable(j) && Plain(j.state) && Plain(state) && |state| <= |j.state|
    ensures Storable(j.(state := state))
  {
    hide Storable, Size;
    StorableExactly(p, j);
    StorableExactly(p, j.(state := state));
    StateSize(j, state);
  }

  /** The journal can still be saved as one that is being rolled back. */
  predicate LeavesRoom(j: Journal) {
    Size(j) - |j.state| + |"rollingBack"| <= Json.MAX_BYTES
  }

  lemma StatesPlain()
    ensures Plain("prepared") && Plain("applying") && Plain("installed") && Plain("completed") && Plain("rollingBack") && Plain("rolledBack")
  {
  }

  /** A stored journal can be saved as rolling back exactly when it leaves room for that. */
  lemma RoomExactly(p: Policy, j: Journal)
    requires Accepted(p, j) && Storable(j) && Plain(j.state)
    ensures Storable(j.(state := "rollingBack")) <==> LeavesRoom(j)
    ensures LeavesRoom(j) ==> Storable(j.(state := "rolledBack"))
  {
    hide Storable, Size;
    StatesPlain();
    StorableExactly(p, j);
    StorableExactly(p, j.(state := "rollingBack"));
    StateSize(j, "rollingBack");
    if LeavesRoom(j) { ShorterStorable(p, j.(state := "rollingBack"), "rolledBack"); }
  }

  /** A saved journal is one the loader reads back. */
  lemma StoredLoads(p: Policy, j: Journal)
    requires Accepted(p, j) && Storable(j)
    ensures JournalCodec.Load(p, JournalCodec.SaveText(j)) == JournalCodec.Stored(j)
  {
    hide JsonReader.Parse, JournalCodec.SaveText, JournalCodec.Load;
    JournalCodec.SaveLoad(p, j);
  }
}
