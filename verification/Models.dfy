/** Model names and the model index of go/models.go. */
module Models {
  import opened Wrappers
  import opened Text

  datatype ModelDef = ModelDef(
    id: string, display: string, description: string, context: int, output: int,
    outputSource: string, contextSource: string, gatewayOutput: int, vision: Option<bool>, efforts: seq<string>)

  datatype Snapshot = Snapshot(defs: seq<ModelDef>, byID: map<string, nat>, byShort: map<string, int>)

  datatype Selection = Selection(base: string, suffix: Option<string>)

  /** The model lists of the configuration. */
  datatype Filter = Filter(models: seq<string>, disabled: seq<string>)

  const CPA_NAMESPACE := "cpa-cmdcode-go/"
  const NAMESPACE := "cmdcode-go/"

  // ---------- names ----------

  /** Ends in a parenthesised suffix. */
  predicate HasSuffix(name: string) {
    '(' in name && name[|name| - 1] == ')'
  }

  function SplitSuffix(name: string): Selection {
    if HasSuffix(name) then
      var at := LastIndex(name, '(');
      Selection(TrimSpace(name[..at]), Some(Lower(TrimSpace(name[at + 1..|name| - 1]))))
    else
      Selection(name, None)
  }

  /** Length of the plugin namespace at the head of a lower-case name; at most one is taken off. */
  function NamespaceLength(key: string): (n: nat)
    ensures n <= |key| && (n > 0 ==> '/' in key)
  {
    if CPA_NAMESPACE <= key then assert key[14] == '/'; |CPA_NAMESPACE|
    else if NAMESPACE <= key then assert key[10] == '/'; |NAMESPACE|
    else 0
  }

  function ParseModelName(name: string): Selection {
    var s := SplitSuffix(TrimSpace(name));
    s.(base := s.base[NamespaceLength(Lower(s.base))..])
  }

  function Key(name: string): string {
    Lower(ParseModelName(name).base)
  }

  // ---------- the two indexes ----------

  function Ids(defs: seq<ModelDef>): seq<string> {
    seq(|defs|, i requires 0 <= i < |defs| => Lower(defs[i].id))
  }

  function Shorts(defs: seq<ModelDef>): seq<string> {
    seq(|defs|, i requires 0 <= i < |defs| => Lower(Basename(defs[i].id)))
  }

  /** A linear scan for the last holder of a key. */
  function LastAt(keys: seq<string>, key: string): (at: Option<nat>)
    ensures at.Some? <==> key in keys
    ensures at.Some? ==> at.value < |keys| && keys[at.value] == key
  {
    if keys == [] then None
    else
      var n := |keys| - 1;
      if keys[n] == key then Some(n) else LastAt(keys[..n], key)
  }

  /** A linear scan for the only holder of a key. */
  function OnlyAt(keys: seq<string>, key: string): (at: Option<nat>)
    ensures at.Some? ==> LastAt(keys, key) == at
  {
    var last := LastAt(keys, key);
    if last.Some? && key !in keys[..last.value] then last else None
  }

  /** byID finds the last holder of a key. */
  ghost predicate FullIndex(keys: seq<string>, index: map<string, nat>) {
    forall k :: LastAt(keys, k) == if k in index then Some(index[k]) else None
  }

  /** byShort knows every key in use and finds its only holder; -1 stands for several. */
  ghost predicate ShortIndex(keys: seq<string>, index: map<string, int>) {
    forall k :: (k in index <==> k in keys)
                && (k in index ==> index[k] == if OnlyAt(keys, k).Some? then OnlyAt(keys, k).value else -1)
  }

  ghost predicate Indexed(s: Snapshot) {
    FullIndex(Ids(s.defs), s.byID) && ShortIndex(Shorts(s.defs), s.byShort)
  }

  lemma FullIndexStep(keys: seq<string>, n: nat, index: map<string, nat>)
    requires n < |keys| && FullIndex(keys[..n], index)
    ensures FullIndex(keys[..n + 1], index[keys[n] := n])
  {
    assert keys[..n + 1][..n] == keys[..n];
  }

  lemma ShortIndexStep(keys: seq<string>, n: nat, index: map<string, int>)
    requires n < |keys| && ShortIndex(keys[..n], index)
    ensures ShortIndex(keys[..n + 1], index[keys[n] := if keys[n] in index then -1 else n])
  {
    assert keys[..n + 1][..n] == keys[..n];
  }

  method NewModelSnapshot(defs: seq<ModelDef>) returns (s: Snapshot)
    ensures s.defs == defs && Indexed(s)
  {
    ghost var ids, shorts := Ids(defs), Shorts(defs);
    var byID: map<string, nat>, byShort: map<string, int> := map[], map[];
    for i := 0 to |defs|
      invariant FullIndex(ids[..i], byID) && ShortIndex(shorts[..i], byShort)
    {
      FullIndexStep(ids, i, byID);
      ShortIndexStep(shorts, i, byShort);
      byID := byID[Lower(defs[i].id) := i];
      var short := Lower(Basename(defs[i].id));
      byShort := byShort[short := if short in byShort then -1 else i];
    }
    assert ids[..|defs|] == ids && shorts[..|defs|] == shorts;
    s := Snapshot(defs, byID, byShort);
  }

  /** What a key names: the last entry with that full id or, for a key without a slash that is
      nobody's full id, the only entry with that basename. */
  function LinearScan(defs: seq<ModelDef>, key: string): Option<string> {
    var full, short := LastAt(Ids(defs), key), OnlyAt(Shorts(defs), key);
    if full.Some? then Some(defs[full.value].id)
    else if '/' !in key && short.Some? then Some(defs[short.value].id)
    else None
  }

  /** Match through the two maps finds what a linear scan of the roster finds. */
  function Match(s: Snapshot, name: string): (found: Option<string>)
    requires Indexed(s)
    ensures found == LinearScan(s.defs, Key(name))
  {
    var key := Key(name);
    assert key in s.byID ==> LastAt(Ids(s.defs), key) == Some(s.byID[key]);
    if key in s.byID then Some(s.defs[s.byID[key]].id)
    else if '/' !in key && key in s.byShort && s.byShort[key] >= 0 then Some(s.defs[s.byShort[key]].id)
    else None
  }

  /** The entry an id names; short names are not looked up here. */
  function Definition(s: Snapshot, id: string): Option<ModelDef>
    requires Indexed(s)
  {
    var key := Key(id);
    assert key in s.byID ==> LastAt(Ids(s.defs), key) == Some(s.byID[key]);
    if key in s.byID then Some(s.defs[s.byID[key]]) else None
  }
}
