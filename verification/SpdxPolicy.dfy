/** Whether an expression can be satisfied with the licences that are allowed. */
module SpdxPolicy {
  import opened Common
  import opened SpdxGrammar
  import opened SpdxParser
  import opened SpdxTokens

  datatype Leaf = Leaf(id: string, exception: Option<string>)

  predicate LeafAllowed(leaf: Leaf, allowed: set<string>, exceptions: set<string>) {
    (leaf.exception.Some? ==> leaf.exception.value in exceptions) && leaf.id in allowed
  }

  predicate Satisfied(t: Tree, allowed: set<string>, exceptions: set<string>) {
    match t
    case License(id, exception) => LeafAllowed(Leaf(id, exception), allowed, exceptions)
    case AllOf(terms) => forall i :: 0 <= i < |terms| ==> Satisfied(terms[i], allowed, exceptions)
    case AnyOf(alternatives) => exists i :: 0 <= i < |alternatives| && Satisfied(alternatives[i], allowed, exceptions)
  }

  /** `chosen` is what must be met after choosing one alternative of every list of alternatives that comes into play. */
  ghost predicate IsChoice(t: Tree, chosen: set<Leaf>) {
    match t
    case License(id, exception) => chosen == {Leaf(id, exception)}
    case AnyOf(alternatives) => exists i :: 0 <= i < |alternatives| && IsChoice(alternatives[i], chosen)
    case AllOf(terms) => exists parts: seq<set<Leaf>> :: MakesUp(terms, parts, chosen)
  }

  /** One choice for each of the terms, together. */
  ghost predicate MakesUp(terms: seq<Tree>, parts: seq<set<Leaf>>, chosen: set<Leaf>) {
    && |parts| == |terms|
    && (forall i :: 0 <= i < |terms| ==> IsChoice(terms[i], parts[i]))
    && (forall leaf :: leaf in chosen <==> exists i :: 0 <= i < |parts| && leaf in parts[i])
  }

  ghost predicate AllAllowed(chosen: set<Leaf>, allowed: set<string>, exceptions: set<string>) {
    forall leaf :: leaf in chosen ==> leaf.id in allowed && (leaf.exception.None? || leaf.exception.value in exceptions)
  }

  lemma {:induction false} SatisfiedHasChoice(t: Tree, allowed: set<string>, exceptions: set<string>) returns (chosen: set<Leaf>)
    requires Satisfied(t, allowed, exceptions)
    ensures IsChoice(t, chosen) && AllAllowed(chosen, allowed, exceptions)
    decreases t, 1
  {
    match t
    case License(id, exception) => chosen := {Leaf(id, exception)};
    case AnyOf(alternatives) =>
      var i :| 0 <= i < |alternatives| && Satisfied(alternatives[i], allowed, exceptions);
      chosen := SatisfiedHasChoice(alternatives[i], allowed, exceptions);
    case AllOf(terms) =>
      var parts: seq<set<Leaf>>;
      parts, chosen := ChoicesOfAll(terms, allowed, exceptions);
      assert MakesUp(terms, parts, chosen);
  }

  lemma {:induction false} ChoicesOfAll(terms: seq<Tree>, allowed: set<string>, exceptions: set<string>)
    returns (parts: seq<set<Leaf>>, chosen: set<Leaf>)
    requires forall i :: 0 <= i < |terms| ==> Satisfied(terms[i], allowed, exceptions)
    ensures MakesUp(terms, parts, chosen) && AllAllowed(chosen, allowed, exceptions)
    decreases terms, 0
  {
    if terms == [] {
      parts, chosen := [], {};
    } else {
      var first := SatisfiedHasChoice(terms[0], allowed, exceptions);
      var others, union := ChoicesOfAll(terms[1..], allowed, exceptions);
      parts, chosen := [first] + others, first + union;
      OneMorePart(terms, first, others, union);
    }
  }

  lemma OneMorePart(terms: seq<Tree>, first: set<Leaf>, others: seq<set<Leaf>>, union: set<Leaf>)
    requires terms != [] && IsChoice(terms[0], first) && MakesUp(terms[1..], others, union)
    ensures MakesUp(terms, [first] + others, first + union)
  {
    var parts := [first] + others;
    forall i | 0 <= i < |terms|
      ensures IsChoice(terms[i], parts[i])
    {
      assert i > 0 ==> terms[i] == terms[1..][i - 1] && parts[i] == others[i - 1];
    }
    forall leaf | leaf in first + union
      ensures exists i :: 0 <= i < |parts| && leaf in parts[i]
    {
      if leaf in first {
        assert leaf in parts[0];
      } else {
        var i :| 0 <= i < |others| && leaf in others[i];
        assert leaf in parts[i + 1];
      }
    }
  }

  lemma {:induction false} ChoiceSatisfies(t: Tree, chosen: set<Leaf>, allowed: set<string>, exceptions: set<string>)
    requires IsChoice(t, chosen) && AllAllowed(chosen, allowed, exceptions)
    ensures Satisfied(t, allowed, exceptions)
  {
    match t
    case License(id, exception) => assert Leaf(id, exception) in chosen;
    case AnyOf(alternatives) =>
      var i :| 0 <= i < |alternatives| && IsChoice(alternatives[i], chosen);
      ChoiceSatisfies(alternatives[i], chosen, allowed, exceptions);
    case AllOf(terms) =>
      var parts: seq<set<Leaf>> :| MakesUp(terms, parts, chosen);
      forall i | 0 <= i < |terms|
        ensures Satisfied(terms[i], allowed, exceptions)
      {
        assert forall leaf :: leaf in parts[i] ==> leaf in chosen;
        ChoiceSatisfies(terms[i], parts[i], allowed, exceptions);
      }
  }

  /** An expression is satisfied exactly when some choice among its alternatives leaves only allowed terms. */
  lemma SatisfiedIsSomeChoice(t: Tree, allowed: set<string>, exceptions: set<string>)
    ensures Satisfied(t, allowed, exceptions) <==> exists chosen :: IsChoice(t, chosen) && AllAllowed(chosen, allowed, exceptions)
  {
    if Satisfied(t, allowed, exceptions) {
      var chosen := SatisfiedHasChoice(t, allowed, exceptions);
    }
    if chosen :| IsChoice(t, chosen) && AllAllowed(chosen, allowed, exceptions) {
      ChoiceSatisfies(t, chosen, allowed, exceptions);
    }
  }

  /** Allowing more never makes an acceptable expression unacceptable. */
  lemma {:induction false} SatisfiedIsMonotone(t: Tree, allowed: set<string>, exceptions: set<string>, more: set<string>, wider: set<string>)
    requires allowed <= more && exceptions <= wider && Satisfied(t, allowed, exceptions)
    ensures Satisfied(t, more, wider)
  {
    match t
    case License(_, _) =>
    case AllOf(terms) =>
      forall i | 0 <= i < |terms|
        ensures Satisfied(terms[i], more, wider)
      {
        SatisfiedIsMonotone(terms[i], allowed, exceptions, more, wider);
      }
    case AnyOf(alternatives) =>
      var i :| 0 <= i < |alternatives| && Satisfied(alternatives[i], allowed, exceptions);
      SatisfiedIsMonotone(alternatives[i], allowed, exceptions, more, wider);
  }

  /** An expression that cannot be read cannot be approved, and the empty one cannot be read. */
  method Acceptable(expression: string, allowed: set<string>, exceptions: set<string>) returns (ok: bool)
    ensures ok <==>
      exists t, chosen :: Parse(Tokenize(expression)) == Some(t) && IsChoice(t, chosen) && AllAllowed(chosen, allowed, exceptions)
  {
    if expression == "" {
      return false;
    }
    var tree := ParseTokens(Tokenize(expression));
    if tree.None? {
      return false;
    }
    SatisfiedIsSomeChoice(tree.value, allowed, exceptions);
    return Satisfied(tree.value, allowed, exceptions);
  }

  /** A tree written out as text is read back from the text. */
  lemma WrittenOutReadsBack(t: Tree)
    requires Normal(t) && PlainTree(t)
    ensures Parse(Tokenize(Render(Print(t)))) == Some(t)
  {
    PrintIsPlain(t);
    TokenizeUndoesRender(Print(t));
    RoundTrip(t);
  }

  lemma PrintedAlternatives(a: Tree, b: Tree)
    ensures Print(AnyOf([a, b])) == PrintConjunction(a) + [OrWord] + PrintConjunction(b)
  {
    var rest := [b];
    assert rest[1..] == [];
    assert OrTail(rest) == [OrWord] + PrintConjunction(b);
    assert [a, b][1..] == rest;
  }

  lemma SlashIsCut(a: Tree, b: Tree)
    requires PlainTree(a) && PlainTree(b)
    ensures
      Tokenize(Render(PrintConjunction(a)) + "/" + Render(PrintConjunction(b))) == PrintConjunction(a) + [OrWord] + PrintConjunction(b)
  {
    var first, second := PrintConjunction(a), PrintConjunction(b);
    PrintConjunctionIsPlain(a);
    PrintConjunctionIsPlain(b);
    TokenizeUndoesRender(first);
    TokenizeUndoesRender(second);
    SlashSeparates(Render(first), Render(second));
  }

  /** Alternatives written with the old separator are read as those written with OR. */
  lemma SlashReadsAsOr(a: Tree, b: Tree)
    requires Normal(a) && Normal(b) && PlainTree(a) && PlainTree(b) && Normal(AnyOf([a, b]))
    ensures Parse(Tokenize(Render(PrintConjunction(a)) + "/" + Render(PrintConjunction(b)))) == Some(AnyOf([a, b]))
  {
    SlashIsCut(a, b);
    PrintedAlternatives(a, b);
    RoundTrip(AnyOf([a, b]));
  }
}
