/** The configuration merge of go/config.go: decodeConfig from the parsed YAML fields on, and the
    store that publishes its result. */
module Configuration {
  import opened Wrappers
  import opened Text

  datatype Scalar =
    | ApiKey | BaseUrl | CliVersion | ProjectSlug | PermissionMode | ModelsUrl | ModelsFile | RefreshInterval
  datatype ListKey = ModelList | DisabledList

  /** A YAML value: null, a string, a sequence, or something else. */
  datatype Node = NullNode | Text(text: string) | Items(items: seq<Node>) | OtherNode

  /** A configuration request: without configuration text, unreadable, or the fields of a mapping. */
  datatype Request = Empty | Unreadable | Fields(scalars: map<Scalar, Node>, lists: map<ListKey, Node>)

  /** pluginConfig. A field that is not there is empty. */
  datatype PluginConfig = PluginConfig(scalars: map<Scalar, string>, lists: map<ListKey, seq<string>>)

  const NOTHING := PluginConfig(map[], map[])

  function ScalarOf(c: PluginConfig, k: Scalar): string {
    if k in c.scalars then c.scalars[k] else ""
  }

  function ListOf(c: PluginConfig, k: ListKey): seq<string> {
    if k in c.lists then c.lists[k] else []
  }

  // ---------- lists ----------

  /** The pieces of a text between commas. */
  function Split(text: string): (pieces: seq<string>)
    ensures pieces != []
  {
    var at := LastIndex(text, ',');
    if at < 0 then [text] else Split(text[..at]) + [text[at + 1..]]
  }

  /** The non-empty pieces, without white space around them. */
  function Entries(pieces: seq<string>): seq<string> {
    if pieces == [] then []
    else
      var last := TrimSpace(pieces[|pieces| - 1]);
      Entries(pieces[..|pieces| - 1]) + if last != "" then [last] else []
  }

  /** The items of a sequence, without white space around them; None when one is no text or blank. */
  function ItemTexts(items: seq<Node>): Option<seq<string>> {
    if items == [] then Some([])
    else
      var before, last := ItemTexts(items[..|items| - 1]), items[|items| - 1];
      if before.None? || !last.Text? || TrimSpace(last.text) == "" then None
      else Some(before.value + [TrimSpace(last.text)])
  }

  /** What a list field means: null clears, a text is split at commas, a sequence is taken item by
      item; None is a fault. */
  function ListMeaning(n: Node): Option<seq<string>> {
    match n
    case NullNode => Some([])
    case Text(text) => Some(Entries(Split(text)))
    case Items(items) => ItemTexts(items)
    case OtherNode => None
  }

  /** What a scalar field means: null clears, a text is the value; None is a fault. */
  function ScalarMeaning(n: Node): Option<string> {
    match n
    case NullNode => Some("")
    case Text(text) => Some(text)
    case _ => None
  }

  // ---------- what a request asks for ----------

  ghost predicate Readable(request: Request) {
    && !request.Unreadable?
    && (request.Fields? ==>
          && (forall k :: k in request.scalars ==> ScalarMeaning(request.scalars[k]).Some?)
          && (forall k :: k in request.lists ==> ListMeaning(request.lists[k]).Some?))
  }

  function ScalarsOf(fields: map<Scalar, Node>): map<Scalar, string> {
    map k | k in fields && ScalarMeaning(fields[k]).Some? :: ScalarMeaning(fields[k]).value
  }

  function ListsOf(fields: map<ListKey, Node>): map<ListKey, seq<string>> {
    map k | k in fields && ListMeaning(fields[k]).Some? :: ListMeaning(fields[k]).value
  }

  /** The fields of the request over the previous ones. */
  function Merged(previous: PluginConfig, request: Request): PluginConfig {
    if !request.Fields? then previous
    else PluginConfig(previous.scalars + ScalarsOf(request.scalars), previous.lists + ListsOf(request.lists))
  }

  /** In a merge a field that is missing keeps its value, null clears it, a text sets it, and lists
      are set as a whole. */
  lemma MergeKeepsMissingFields(previous: PluginConfig, request: Request, k: Scalar, l: ListKey)
    requires Readable(request) && request.Fields?
    ensures var next := Merged(previous, request);
            && (k !in request.scalars ==> ScalarOf(next, k) == ScalarOf(previous, k))
            && (k in request.scalars && request.scalars[k].NullNode? ==> ScalarOf(next, k) == "")
            && (k in request.scalars && request.scalars[k].Text? ==> ScalarOf(next, k) == request.scalars[k].text)
            && (l !in request.lists ==> ListOf(next, l) == ListOf(previous, l))
            && (l in request.lists && request.lists[l].NullNode? ==> ListOf(next, l) == [])
            && (l in request.lists ==> Some(ListOf(next, l)) == ListMeaning(request.lists[l]))
  {
  }

  /** An item of a list is never empty and never has white space at its ends. */
  lemma {:induction false} EntriesAreTrimmed(pieces: seq<string>, e: string)
    requires e in Entries(pieces)
    ensures e != "" && exists i :: 0 <= i < |pieces| && TrimSpace(pieces[i]) == e
  {
    var n := |pieces| - 1;
    if e in Entries(pieces[..n]) {
      EntriesAreTrimmed(pieces[..n], e);
      assert forall i :: 0 <= i < n ==> pieces[..n][i] == pieces[i];
    } else {
      assert TrimSpace(pieces[n]) == e;
    }
  }

  /** Pieces with a comma between each two. */
  function JoinCommas(pieces: seq<string>): string {
    if pieces == [] then ""
    else if |pieces| == 1 then pieces[0]
    else JoinCommas(pieces[..|pieces| - 1]) + "," + pieces[|pieces| - 1]
  }

  /** Splitting loses nothing: the pieces have no commas and join to the text again. */
  lemma {:induction false} SplitRejoins(text: string)
    ensures JoinCommas(Split(text)) == text
    ensures forall p :: p in Split(text) ==> ',' !in p
  {
    var at := LastIndex(text, ',');
    if at >= 0 {
      SplitRejoins(text[..at]);
      var before, last := Split(text[..at]), text[at + 1..];
      assert (before + [last])[..|before|] == before;
      assert text == text[..at] + "," + last;
    }
  }

  /** No piece is passed over and their order stays: one after another, each piece gives its own entry,
      or none when it is blank. */
  lemma {:induction false} EntriesOneByOne(before: seq<string>, piece: string, after: seq<string>)
    ensures Entries(before + [piece] + after)
            == Entries(before) + (if TrimSpace(piece) == "" then [] else [TrimSpace(piece)]) + Entries(after)
  {
    if after == [] {
      EntriesLast(before, piece);
      assert before + [piece] + after == before + [piece];
    } else {
      var n := |after| - 1;
      EntriesOneByOne(before, piece, after[..n]);
      EntriesLast(before + [piece] + after[..n], after[n]);
      EntriesLast(after[..n], after[n]);
      MoreAtEnd(before + [piece], after, n);
    }
  }

  lemma MoreAtEnd<T>(first: seq<T>, after: seq<T>, n: nat)
    requires |after| == n + 1
    ensures after == after[..n] + [after[n]] && first + after == (first + after[..n]) + [after[n]]
  {
  }

  lemma EntriesLast(pieces: seq<string>, last: string)
    ensures Entries(pieces + [last]) == Entries(pieces) + if TrimSpace(last) == "" then [] else [TrimSpace(last)]
  {
    assert (pieces + [last])[..|pieces|] == pieces;
  }

  /** A sequence is taken item by item: every item, in order, when all are texts that are not blank,
      and nothing otherwise. */
  lemma {:induction false} ItemsOneByOne(items: seq<Node>)
    ensures ItemTexts(items).Some? <==>
              forall i :: 0 <= i < |items| ==> items[i].Text? && TrimSpace(items[i].text) != ""
    ensures ItemTexts(items).Some? ==>
              && |ItemTexts(items).value| == |items|
              && forall i :: 0 <= i < |items| ==>
                   items[i].Text? && ItemTexts(items).value[i] == TrimSpace(items[i].text)
  {
    if items != [] {
      var before := items[..|items| - 1];
      ItemsOneByOne(before);
      assert forall i :: 0 <= i < |before| ==> before[i] == items[i];
    }
  }

  /** One more field has been taken over. */
  lemma ScalarTaken(fields: map<Scalar, Node>, left: set<Scalar>, k: Scalar, previous: map<Scalar, string>)
    requires k in left && k in fields && ScalarMeaning(fields[k]).Some?
    ensures previous + ScalarsOf(fields - (left - {k})) ==
            (previous + ScalarsOf(fields - left))[k := ScalarMeaning(fields[k]).value]
  {
  }

  lemma ListTaken(fields: map<ListKey, Node>, left: set<ListKey>, k: ListKey, previous: map<ListKey, seq<string>>)
    requires k in left && k in fields && ListMeaning(fields[k]).Some?
    ensures previous + ListsOf(fields - (left - {k})) ==
            (previous + ListsOf(fields - left))[k := ListMeaning(fields[k]).value]
  {
  }

  /** The scalar fields, in whatever order the map is traversed; None at the first fault. */
  method MergeScalars(fields: map<Scalar, Node>, previous: map<Scalar, string>)
    returns (next: Option<map<Scalar, string>>)
    ensures next.Some? <==> forall k :: k in fields ==> ScalarMeaning(fields[k]).Some?
    ensures next.Some? ==> next.value == previous + ScalarsOf(fields)
  {
    var left, out := fields.Keys, previous;
    while left != {}
      invariant left <= fields.Keys && out == previous + ScalarsOf(fields - left)
      invariant forall k :: k in fields && k !in left ==> ScalarMeaning(fields[k]).Some?
      decreases left
    {
      var k :| k in left;
      if ScalarMeaning(fields[k]).Some? { ScalarTaken(fields, left, k, previous); }
      left := left - {k};
      match fields[k]
      case NullNode => out := out[k := ""];
      case Text(text) => out := out[k := text];
      case _ => return None;
    }
    assert fields - left == fields;
    next := Some(out);
  }

  lemma EntriesOneMore(pieces: seq<string>, i: nat)
    requires i < |pieces|
    ensures var item := TrimSpace(pieces[i]);
            Entries(pieces[..i + 1]) == if item != "" then Entries(pieces[..i]) + [item] else Entries(pieces[..i])
  {
    assert pieces[..i + 1][..i] == pieces[..i];
  }

  /** The pieces of a comma-separated text. */
  method ReadText(text: string) returns (list: seq<string>)
    ensures list == Entries(Split(text))
  {
    var pieces := Split(text);
    list := [];
    for i := 0 to |pieces|
      invariant list == Entries(pieces[..i])
    {
      EntriesOneMore(pieces, i);
      var item := TrimSpace(pieces[i]);
      if item != "" { list := list + [item]; }
    }
    assert pieces[..|pieces|] == pieces;
  }

  lemma {:induction false} FaultStays(items: seq<Node>, n: nat)
    requires n <= |items| && ItemTexts(items[..n]).None?
    ensures ItemTexts(items).None?
  {
    if n == |items| {
      assert items[..n] == items;
    } else {
      var before := items[..|items| - 1];
      assert before[..n] == items[..n];
      FaultStays(before, n);
    }
  }

  /** The items of a sequence; None at the first that is no text or blank. */
  method ReadItems(items: seq<Node>) returns (list: Option<seq<string>>)
    ensures list == ItemTexts(items)
  {
    var out: seq<string> := [];
    for i := 0 to |items|
      invariant ItemTexts(items[..i]) == Some(out)
    {
      assert items[..i + 1][..i] == items[..i];
      if !items[i].Text? || TrimSpace(items[i].text) == "" {
        FaultStays(items, i + 1);
        return None;
      }
      out := out + [TrimSpace(items[i].text)];
    }
    assert items[..|items|] == items;
    list := Some(out);
  }

  /** One list field: null, a comma-separated text or a sequence of non-empty texts. */
  method ReadList(n: Node) returns (list: Option<seq<string>>)
    ensures list == ListMeaning(n)
  {
    match n
    case NullNode => return Some([]);
    case OtherNode => return None;
    case Items(items) => list := ReadItems(items);
    case Text(text) =>
      var entries := ReadText(text);
      list := Some(entries);
  }

  /** The list fields, in whatever order the map is traversed; None at the first fault. */
  method MergeLists(fields: map<ListKey, Node>, previous: map<ListKey, seq<string>>)
    returns (next: Option<map<ListKey, seq<string>>>)
    ensures next.Some? <==> forall k :: k in fields ==> ListMeaning(fields[k]).Some?
    ensures next.Some? ==> next.value == previous + ListsOf(fields)
  {
    var left, out := fields.Keys, previous;
    while left != {}
      invariant left <= fields.Keys && out == previous + ListsOf(fields - left)
      invariant forall k :: k in fields && k !in left ==> ListMeaning(fields[k]).Some?
      decreases left
    {
      var k :| k in left;
      var list := ReadList(fields[k]);
      if list.None? { return None; }
      ListTaken(fields, left, k, previous);
      left := left - {k};
      out := out[k := list.value];
    }
    assert fields - left == fields;
    next := Some(out);
  }

  /** decodeConfig: the merge, or None when the request is unreadable, a field has the wrong kind of
      value, or validation refuses the merge. `valid` is validateConfig. */
  method DecodeConfig(request: Request, previous: PluginConfig, valid: PluginConfig -> bool)
    returns (next: Option<PluginConfig>)
    ensures next == if Readable(request) && (request.Empty? || valid(Merged(previous, request)))
                    then Some(Merged(previous, request)) else None
  {
    if request.Empty? { return Some(previous); }
    if request.Unreadable? { return None; }
    var scalars := MergeScalars(request.scalars, previous.scalars);
    if scalars.None? { return None; }
    var lists := MergeLists(request.lists, previous.lists);
    if lists.None? { return None; }
    var merged := PluginConfig(scalars.value, lists.value);
    next := if valid(merged) then Some(merged) else None;
  }

  /** ConfigStore. */
  class ConfigStore {
    var value: PluginConfig
    const valid: PluginConfig -> bool

    constructor (valid: PluginConfig -> bool)
      ensures value == NOTHING && this.valid == valid
    {
      value, this.valid := NOTHING, valid;
    }

    /** An accepted request is merged as a whole; a refused one changes nothing. */
    method Update(request: Request) returns (next: Option<PluginConfig>)
      modifies this
      ensures next.Some? <==> Readable(request) && (request.Empty? || valid(Merged(old(value), request)))
      ensures value == if next.Some? then Merged(old(value), request) else old(value)
      ensures next.Some? ==> next.value == value
    {
      next := DecodeConfig(request, value, valid);
      if next.Some? { value := next.value; }
    }
  }
}
