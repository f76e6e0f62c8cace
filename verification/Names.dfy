/** What parsing a model name does (go/models.go): the shapes that parse to themselves, what a suffix
    and a namespace add, and that case plays no part. */
module Names {
  import opened Wrappers
  import opened Text
  import opened Models

  // ---------- proper names ----------

  /** Not empty, and no white space at either end. */
  predicate Trimmed(s: string) {
    s != "" && !IsSpace(s[0]) && !IsSpace(s[|s| - 1])
  }

  lemma TrimmedAlready(s: string)
    requires Trimmed(s)
    ensures TrimSpace(s) == s
  {
  }

  predicate LowerWord(s: string) {
    s != "" && forall i :: 0 <= i < |s| ==> 'a' <= s[i] <= 'z'
  }

  lemma WordsAreVerbatim(s: string)
    requires LowerWord(s)
    ensures Lower(TrimSpace(s)) == s && Trimmed(s) && '(' !in s && '/' !in s
  {
    TrimmedAlready(s);
    assert Lower(s) == s;
  }

  /** What TrimSpace leaves has no white space at its ends. */
  lemma TrimSpaceTrims(s: string)
    requires TrimSpace(s) != ""
    ensures Trimmed(TrimSpace(s))
  {
    TrimLeftTrims(s);
    TrimRightTrims(TrimLeft(s));
  }

  lemma {:induction false} TrimLeftTrims(s: string)
    ensures TrimLeft(s) != "" ==> !IsSpace(TrimLeft(s)[0])
  {
    if s != "" && IsSpace(s[0]) { TrimLeftTrims(s[1..]); }
  }

  lemma {:induction false} TrimRightTrims(s: string)
    ensures TrimRight(s) != "" ==> !IsSpace(TrimRight(s)[|TrimRight(s)| - 1]) && s != "" && TrimRight(s)[0] == s[0]
  {
    if s != "" && IsSpace(s[|s| - 1]) { TrimRightTrims(s[..|s| - 1]); }
  }

  // ---------- names that parse to themselves ----------

  /** No white space, no terminal parenthesised suffix, no leading plugin namespace. */
  predicate Plain(name: string) {
    (forall c :: c in name ==> !IsSpace(c)) && !HasSuffix(name) && NamespaceLength(Lower(name)) == 0
  }

  lemma PlainParses(name: string)
    requires Plain(name)
    ensures ParseModelName(name) == Selection(name, None)
  {
    if name != "" { assert name[0] in name && name[|name| - 1] in name; }
    assert TrimSpace(name) == name;
  }

  lemma PlainFolds(name: string, like: string)
    requires Lower(name) == Lower(like) && Plain(like)
    ensures Plain(name)
  {
    assert |name| == |like|;
    forall i | 0 <= i < |name|
      ensures LowerChar(name[i]) == LowerChar(like[i]) && like[i] in like
    {
      assert Lower(name)[i] == Lower(like)[i];
    }
  }

  lemma BasenameIsPlain(id: string)
    requires Plain(id)
    ensures Plain(Basename(id))
  {
    var b := Basename(id);
    assert forall c :: c in b ==> c in id;
    assert forall i :: 0 <= i < |b| ==> Lower(b)[i] != '/';
  }

  // ---------- suffixes ----------

  lemma LastIndexIs(s: string, c: char, at: nat)
    requires at < |s| && s[at] == c && forall j :: at < j < |s| ==> s[j] != c
    ensures LastIndex(s, c) == at
  {
  }

  function WithSuffix(base: string, value: string): (name: string)
    ensures |name| == |base| + |value| + 2 && name[|base|] == '(' && name[|name| - 1] == ')'
    ensures name[..|base|] == base && name[|base| + 1..|name| - 1] == value
  {
    base + "(" + value + ")"
  }

  lemma SuffixIsFound(base: string, value: string)
    requires Trimmed(base) && '(' !in value
    ensures var name := WithSuffix(base, value); Trimmed(name) && HasSuffix(name) && LastIndex(name, '(') == |base|
  {
    var name := WithSuffix(base, value);
    assert name[0] == name[..|base|][0];
    forall j | |base| < j < |name|
      ensures name[j] != '('
    {
      if j < |name| - 1 { assert name[j] == value[j - |base| - 1]; }
    }
    LastIndexIs(name, '(', |base|);
  }

  lemma SuffixSplits(name: string, at: nat)
    requires HasSuffix(name) && LastIndex(name, '(') == at < |name| - 1
    ensures SplitSuffix(name) == Selection(TrimSpace(name[..at]), Some(Lower(TrimSpace(name[at + 1..|name| - 1]))))
  {
  }

  /** A proper name with a suffix parses to the two. */
  lemma SuffixParses(base: string, value: string)
    requires Trimmed(base) && '(' !in value
    ensures SplitSuffix(TrimSpace(WithSuffix(base, value))) == Selection(base, Some(Lower(TrimSpace(value))))
  {
    SuffixIsFound(base, value);
    SuffixSplits(WithSuffix(base, value), |base|);
    TrimmedAlready(WithSuffix(base, value));
    TrimmedAlready(base);
  }

  // ---------- namespaces ----------

  function WithoutNamespace(base: string): string {
    base[NamespaceLength(Lower(base))..]
  }

  lemma ParsesTo(name: string, selection: Selection)
    requires SplitSuffix(TrimSpace(name)) == selection
    ensures ParseModelName(name) == selection.(base := WithoutNamespace(selection.base))
  {
  }

  /** One of the plugin's two namespaces, in any case. */
  predicate IsNamespace(p: string) {
    Lower(p) == CPA_NAMESPACE || Lower(p) == NAMESPACE
  }

  lemma NamespaceShape(p: string)
    requires IsNamespace(p)
    ensures Lower(p)[0] == 'c' && Lower(p)[|p| - 1] == '/' && '(' !in Lower(p)
  {
    assert CPA_NAMESPACE[14] == '/' && NAMESPACE[10] == '/';
  }

  /** A namespace begins with a letter, ends with a slash and has no parenthesis. */
  lemma NamespaceEnds(p: string)
    requires IsNamespace(p)
    ensures p != "" && !IsSpace(p[0]) && p[|p| - 1] == '/' && '(' !in p
  {
    NamespaceShape(p);
    assert LowerChar(p[0]) == 'c' && LowerChar(p[|p| - 1]) == '/';
    forall i | 0 <= i < |p|
      ensures p[i] != '('
    {
      assert Lower(p)[i] in Lower(p);
    }
  }

  lemma LowerJoins(a: string, b: string)
    ensures Lower(a + b) == Lower(a) + Lower(b)
  {
  }

  lemma NamespaceComesOff(p: string, id: string)
    requires IsNamespace(p)
    ensures WithoutNamespace(p + id) == id
  {
    LowerJoins(p, id);
    NamespaceFound(Lower(p), Lower(id));
    assert (p + id)[|p|..] == id;
  }

  lemma NamespaceFound(p: string, rest: string)
    requires p == CPA_NAMESPACE || p == NAMESPACE
    ensures NamespaceLength(p + rest) == |p|
  {
    if p == NAMESPACE { assert (p + rest)[1] == 'm'; }
  }

  /** A namespace before a name that ends visibly is a proper name. */
  lemma NamespacedIsTrimmed(p: string, id: string)
    requires IsNamespace(p) && (id != "" ==> !IsSpace(id[|id| - 1]))
    ensures Trimmed(p + id)
  {
    NamespaceEnds(p);
    var name := p + id;
    assert name[0] == p[0];
    if id == "" {
      assert name == p;
    } else {
      assert name[|name| - 1] == id[|id| - 1];
    }
  }

  lemma NamespacedHasNoSuffix(p: string, id: string)
    requires IsNamespace(p) && !HasSuffix(id)
    ensures !HasSuffix(p + id)
  {
    NamespaceEnds(p);
    var name := p + id;
    assert '(' in name ==> '(' in id;
    assert id != "" ==> name[|name| - 1] == id[|id| - 1];
  }

  lemma NamespacedSplits(p: string, id: string)
    requires IsNamespace(p) && Plain(id)
    ensures SplitSuffix(TrimSpace(p + id)) == Selection(p + id, None)
  {
    if id != "" { assert id[|id| - 1] in id; }
    NamespacedIsTrimmed(p, id);
    NamespacedHasNoSuffix(p, id);
    TrimmedAlready(p + id);
  }

  lemma NamespacedParses(p: string, id: string)
    requires IsNamespace(p) && Plain(id)
    ensures ParseModelName(p + id) == Selection(id, None)
  {
    NamespacedSplits(p, id);
    NamespaceComesOff(p, id);
    ParsesTo(p + id, Selection(p + id, None));
  }

  lemma NamespacedSuffixParses(p: string, id: string, value: string)
    requires IsNamespace(p) && Plain(id) && '(' !in value
    ensures ParseModelName(WithSuffix(p + id, value)) == Selection(id, Some(Lower(TrimSpace(value))))
  {
    if id != "" { assert id[|id| - 1] in id; }
    NamespacedIsTrimmed(p, id);
    SuffixParses(p + id, value);
    NamespaceComesOff(p, id);
    ParsesTo(WithSuffix(p + id, value), Selection(p + id, Some(Lower(TrimSpace(value)))));
  }

  lemma NoSlashNoNamespace(base: string)
    requires '/' !in base
    ensures WithoutNamespace(base) == base
  {
    assert forall i :: 0 <= i < |base| ==> Lower(base)[i] != '/';
  }

  lemma FoldedPrefix(name: string, prefix: string)
    requires Lower(prefix) == prefix
    ensures prefix <= name ==> prefix <= Lower(name)
  {
    if prefix <= name { assert forall i :: 0 <= i < |prefix| ==> Lower(name)[i] == Lower(prefix)[i]; }
  }

  lemma PlainHasNoNamespace(name: string)
    requires Plain(name)
    ensures TrimPrefix(TrimPrefix(name, CPA_NAMESPACE), NAMESPACE) == name
  {
    FoldedPrefix(name, CPA_NAMESPACE);
    FoldedPrefix(name, NAMESPACE);
  }

  // ---------- what parsing can leave ----------

  /** A base that parsing leaves is empty or ends visibly. */
  lemma BasesEndVisibly(name: string)
    ensures var base := ParseModelName(name).base; base != "" ==> !IsSpace(base[|base| - 1])
  {
    var split := SplitSuffix(TrimSpace(name)).base;
    if TrimSpace(name) != "" { TrimSpaceTrims(name); }
    SplitIsTrimmed(TrimSpace(name));
    ParsesTo(name, SplitSuffix(TrimSpace(name)));
    var n := NamespaceLength(Lower(split));
    if n < |split| { EndKept(split, n); }
  }

  lemma SplitIsTrimmed(name: string)
    requires name != "" ==> Trimmed(name)
    ensures var split := SplitSuffix(name).base; split != "" ==> Trimmed(split)
  {
    if HasSuffix(name) {
      var head := name[..LastIndex(name, '(')];
      if TrimSpace(head) != "" { TrimSpaceTrims(head); }
    }
  }

  lemma EndKept(s: string, n: nat)
    requires n < |s| && Trimmed(s)
    ensures var rest := s[n..]; rest != "" && !IsSpace(rest[|rest| - 1])
  {
  }

  /** Every base that is not empty and ends visibly is left by some name, and with the suffix asked
      for: put the plugin's namespace before it and the suffix behind it. */
  lemma EveryBaseIsLeft(base: string, value: string)
    requires base != "" && !IsSpace(base[|base| - 1]) && '(' !in value
    ensures ParseModelName(WithSuffix(NAMESPACE + base, value)) == Selection(base, Some(Lower(TrimSpace(value))))
  {
    NamespaceItself();
    NamespacedIsTrimmed(NAMESPACE, base);
    SuffixParses(NAMESPACE + base, value);
    NamespaceComesOff(NAMESPACE, base);
    ParsesTo(WithSuffix(NAMESPACE + base, value), Selection(NAMESPACE + base, Some(Lower(TrimSpace(value)))));
  }

  lemma NamespaceItself()
    ensures IsNamespace(NAMESPACE) && IsNamespace(CPA_NAMESPACE)
  {
    assert Lower(NAMESPACE) == NAMESPACE && Lower(CPA_NAMESPACE) == CPA_NAMESPACE;
  }

  // ---------- case plays no part ----------

  /** Equal up to case. */
  predicate Alike(a: string, b: string) {
    |a| == |b| && forall i :: 0 <= i < |a| ==> LowerChar(a[i]) == LowerChar(b[i])
  }

  lemma AlikeIsLower(a: string, b: string)
    ensures Alike(a, b) <==> Lower(a) == Lower(b)
  {
    if Lower(a) == Lower(b) {
      assert |a| == |b|;
      forall i | 0 <= i < |a|
        ensures LowerChar(a[i]) == LowerChar(b[i])
      {
        assert Lower(a)[i] == Lower(b)[i];
      }
    }
    if Alike(a, b) { assert Lower(a) == Lower(b); }
  }

  lemma AlikeCharacters(a: char, b: char)
    requires LowerChar(a) == LowerChar(b)
    ensures IsSpace(a) == IsSpace(b) && (a == '(' <==> b == '(') && (a == ')' <==> b == ')')
  {
  }

  lemma {:induction false} TrimLeftAlike(a: string, b: string)
    requires Alike(a, b)
    ensures Alike(TrimLeft(a), TrimLeft(b))
    decreases |a|
  {
    if a != "" {
      AlikeCharacters(a[0], b[0]);
      if IsSpace(a[0]) { TrimLeftAlike(a[1..], b[1..]); }
    }
  }

  lemma {:induction false} TrimRightAlike(a: string, b: string)
    requires Alike(a, b)
    ensures Alike(TrimRight(a), TrimRight(b))
    decreases |a|
  {
    if a != "" {
      AlikeCharacters(a[|a| - 1], b[|b| - 1]);
      if IsSpace(a[|a| - 1]) { TrimRightAlike(a[..|a| - 1], b[..|b| - 1]); }
    }
  }

  lemma TrimAlike(a: string, b: string)
    requires Alike(a, b)
    ensures Alike(TrimSpace(a), TrimSpace(b))
  {
    TrimLeftAlike(a, b);
    TrimRightAlike(TrimLeft(a), TrimLeft(b));
  }

  lemma {:induction false} LastIndexAlike(a: string, b: string)
    requires Alike(a, b)
    ensures LastIndex(a, '(') == LastIndex(b, '(')
    decreases |a|
  {
    if a != "" {
      AlikeCharacters(a[|a| - 1], b[|b| - 1]);
      LastIndexAlike(a[..|a| - 1], b[..|b| - 1]);
    }
  }

  lemma SuffixAlike(a: string, b: string)
    requires Alike(a, b)
    ensures HasSuffix(a) == HasSuffix(b)
  {
    LastIndexAlike(a, b);
    assert '(' in a <==> LastIndex(a, '(') >= 0;
    assert '(' in b <==> LastIndex(b, '(') >= 0;
    if a != "" { AlikeCharacters(a[|a| - 1], b[|b| - 1]); }
  }

  lemma SplitAlike(a: string, b: string)
    requires Alike(a, b)
    ensures Alike(SplitSuffix(a).base, SplitSuffix(b).base)
  {
    SuffixAlike(a, b);
    LastIndexAlike(a, b);
    if HasSuffix(a) {
      var at := LastIndex(a, '(');
      TrimAlike(a[..at], b[..at]);
    }
  }

  lemma DropAlike(a: string, b: string, n: nat)
    requires Alike(a, b) && n <= |a|
    ensures Alike(a[n..], b[n..])
  {
  }

  /** Names that differ only in case have one key. */
  lemma KeysFold(a: string, b: string)
    requires Lower(a) == Lower(b)
    ensures Key(a) == Key(b)
  {
    AlikeIsLower(a, b);
    TrimAlike(a, b);
    SplitAlike(TrimSpace(a), TrimSpace(b));
    var x, y := SplitSuffix(TrimSpace(a)).base, SplitSuffix(TrimSpace(b)).base;
    AlikeIsLower(x, y);
    DropAlike(x, y, NamespaceLength(Lower(x)));
    ParsesTo(a, SplitSuffix(TrimSpace(a)));
    ParsesTo(b, SplitSuffix(TrimSpace(b)));
    AlikeIsLower(ParseModelName(a).base, ParseModelName(b).base);
  }
}
