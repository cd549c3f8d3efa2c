/**
 Licence expressions of Annex D of SPDX 2.3: the grammar as functions on the tokens still to read, the
 canonical printing of a tree, and the proof that the two undo each other.
 */
module SpdxGrammar {
  import opened Common

  datatype Token = Open | Close | AndWord | OrWord | WithWord | Word(text: string)

  datatype Tree =
    | License(id: string, exception: Option<string>)
    | AllOf(terms: seq<Tree>)
    | AnyOf(alternatives: seq<Tree>)

  /** A tree, and the tokens after it. */
  type Read = Option<(Tree, seq<Token>)>

  predicate StartsWith(ts: seq<Token>, t: Token) {
    ts != [] && ts[0] == t
  }

  // ----- Reading -----

  function Term(ts: seq<Token>): (r: Read)
    ensures r.Some? ==> |r.value.1| < |ts|
    decreases |ts|, 0
  {
    if ts == [] then None
    else
      match ts[0]
      case Open =>
        (match Expression(ts[1..])
         case None => None
         case Some((tree, rest)) => if StartsWith(rest, Close) then Some((tree, rest[1..])) else None)
      case Word(id) =>
        if !StartsWith(ts[1..], WithWord) then Some((License(id, None), ts[1..]))
        else if |ts| > 2 && ts[2].Word? then Some((License(id, Some(ts[2].text)), ts[3..]))
        else None
      case _ => None
  }

  function MoreTerms(read: seq<Tree>, ts: seq<Token>): (r: Option<(seq<Tree>, seq<Token>)>)
    ensures r.Some? ==> |r.value.1| <= |ts|
    decreases |ts|, 1
  {
    if !StartsWith(ts, AndWord) then Some((read, ts))
    else
      match Term(ts[1..])
      case None => None
      case Some((tree, rest)) => MoreTerms(read + [tree], rest)
  }

  function Conjunction(ts: seq<Token>): (r: Read)
    ensures r.Some? ==> |r.value.1| < |ts|
    decreases |ts|, 2
  {
    match Term(ts)
    case None => None
    case Some((tree, rest)) =>
      match MoreTerms([tree], rest)
      case None => None
      case Some((terms, after)) => Some((if |terms| == 1 then terms[0] else AllOf(terms), after))
  }

  function MoreAlternatives(read: seq<Tree>, ts: seq<Token>): (r: Option<(seq<Tree>, seq<Token>)>)
    ensures r.Some? ==> |r.value.1| <= |ts|
    decreases |ts|, 3
  {
    if !StartsWith(ts, OrWord) then Some((read, ts))
    else
      match Conjunction(ts[1..])
      case None => None
      case Some((tree, rest)) => MoreAlternatives(read + [tree], rest)
  }

  function Expression(ts: seq<Token>): (r: Read)
    ensures r.Some? ==> |r.value.1| < |ts|
    decreases |ts|, 4
  {
    match Conjunction(ts)
    case None => None
    case Some((tree, rest)) =>
      match MoreAlternatives([tree], rest)
      case None => None
      case Some((alternatives, after)) => Some((if |alternatives| == 1 then alternatives[0] else AnyOf(alternatives), after))
  }

  /** A whole expression, with nothing left over. */
  function Parse(ts: seq<Token>): Option<Tree> {
    match Expression(ts)
    case None => None
    case Some((tree, rest)) => if rest == [] then Some(tree) else None
  }

  // ----- Printing -----

  function PrintLicense(id: string, exception: Option<string>): seq<Token> {
    [Word(id)] + match exception case None => [] case Some(e) => [WithWord, Word(e)]
  }

  function PrintTerm(t: Tree): seq<Token>
    decreases t, 3
  {
    if t.License? then PrintLicense(t.id, t.exception) else [Open] + Print(t) + [Close]
  }

  function PrintConjunction(t: Tree): seq<Token>
    decreases t, if t.AnyOf? then 2 else 0
  {
    match t
    case License(id, exception) => PrintLicense(id, exception)
    case AllOf(terms) => if terms == [] then [] else PrintTerm(terms[0]) + AndTail(terms[1..])
    case AnyOf(_) => [Open] + Print(t) + [Close]
  }

  /** The expression with as few parentheses as precedence allows. */
  function Print(t: Tree): seq<Token>
    decreases t, 1
  {
    match t
    case AnyOf(alternatives) => if alternatives == [] then [] else PrintConjunction(alternatives[0]) + OrTail(alternatives[1..])
    case License(_, _) => PrintConjunction(t)
    case AllOf(_) => PrintConjunction(t)
  }

  function AndTail(terms: seq<Tree>): seq<Token>
    decreases terms, 4
  {
    if terms == [] then [] else [AndWord] + PrintTerm(terms[0]) + AndTail(terms[1..])
  }

  function OrTail(alternatives: seq<Tree>): seq<Token>
    decreases alternatives, 4
  {
    if alternatives == [] then [] else [OrWord] + PrintConjunction(alternatives[0]) + OrTail(alternatives[1..])
  }

  /** Every list of terms or alternatives has at least two members. */
  predicate Normal(t: Tree) {
    match t
    case License(_, _) => true
    case AllOf(terms) => |terms| >= 2 && forall i :: 0 <= i < |terms| ==> Normal(terms[i])
    case AnyOf(alternatives) => |alternatives| >= 2 && forall i :: 0 <= i < |alternatives| ==> Normal(alternatives[i])
  }

  // ----- Reading undoes printing -----

  lemma LicenseReadsBack(id: string, exception: Option<string>, rest: seq<Token>)
    requires !StartsWith(rest, WithWord)
    ensures Term(PrintLicense(id, exception) + rest) == Some((License(id, exception), rest))
  {
    var ts := PrintLicense(id, exception) + rest;
    match exception
    case None => assert ts[1..] == rest;
    case Some(e) =>
      assert ts == [Word(id), WithWord, Word(e)] + rest;
      assert ts[1..] == [WithWord, Word(e)] + rest;
      assert ts[3..] == rest;
  }

  lemma {:induction false} TermReadsBack(t: Tree, rest: seq<Token>)
    requires Normal(t) && !StartsWith(rest, WithWord)
    ensures Term(PrintTerm(t) + rest) == Some((t, rest))
    decreases t, 3
  {
    var ts := PrintTerm(t) + rest;
    if t.License? {
      LicenseReadsBack(t.id, t.exception, rest);
    } else {
      assert ts[1..] == Print(t) + ([Close] + rest);
      ReadsBack(t, [Close] + rest);
      assert ([Close] + rest)[1..] == rest;
    }
  }

  lemma {:induction false} MoreTermsReadBack(read: seq<Tree>, terms: seq<Tree>, rest: seq<Token>)
    requires (forall i :: 0 <= i < |terms| ==> Normal(terms[i])) && !StartsWith(rest, WithWord) && !StartsWith(rest, AndWord)
    ensures MoreTerms(read, AndTail(terms) + rest) == Some((read + terms, rest))
    decreases terms, 4
  {
    var ts := AndTail(terms) + rest;
    if terms == [] {
      assert ts == rest && read + terms == read;
    } else {
      var after := AndTail(terms[1..]) + rest;
      assert ts[1..] == PrintTerm(terms[0]) + after;
      TermReadsBack(terms[0], after);
      MoreTermsReadBack(read + [terms[0]], terms[1..], rest);
      assert read + [terms[0]] + terms[1..] == read + terms;
    }
  }

  lemma {:induction false} ConjunctionReadsBack(t: Tree, rest: seq<Token>)
    requires Normal(t) && !StartsWith(rest, WithWord) && !StartsWith(rest, AndWord)
    ensures Conjunction(PrintConjunction(t) + rest) == Some((t, rest))
    decreases t, if t.AnyOf? then 2 else 0
  {
    match t
    case AllOf(terms) =>
      var after := AndTail(terms[1..]) + rest;
      assert PrintConjunction(t) + rest == PrintTerm(terms[0]) + after;
      TermReadsBack(terms[0], after);
      MoreTermsReadBack([terms[0]], terms[1..], rest);
      assert [terms[0]] + terms[1..] == terms;
    case License(id, exception) =>
      LicenseReadsBack(id, exception, rest);
    case AnyOf(_) =>
      var ts := PrintConjunction(t) + rest;
      assert ts[1..] == Print(t) + ([Close] + rest);
      ReadsBack(t, [Close] + rest);
      assert ([Close] + rest)[1..] == rest;
  }

  lemma {:induction false} MoreAlternativesReadBack(read: seq<Tree>, alternatives: seq<Tree>, rest: seq<Token>)
    requires forall i :: 0 <= i < |alternatives| ==> Normal(alternatives[i])
    requires !StartsWith(rest, WithWord) && !StartsWith(rest, AndWord) && !StartsWith(rest, OrWord)
    ensures MoreAlternatives(read, OrTail(alternatives) + rest) == Some((read + alternatives, rest))
    decreases alternatives, 4
  {
    var ts := OrTail(alternatives) + rest;
    if alternatives == [] {
      assert ts == rest && read + alternatives == read;
    } else {
      var after := OrTail(alternatives[1..]) + rest;
      assert ts[1..] == PrintConjunction(alternatives[0]) + after;
      ConjunctionReadsBack(alternatives[0], after);
      MoreAlternativesReadBack(read + [alternatives[0]], alternatives[1..], rest);
      assert read + [alternatives[0]] + alternatives[1..] == read + alternatives;
    }
  }

  /** Reading a printed tree gives the tree back and leaves what follows it. */
  lemma {:induction false} ReadsBack(t: Tree, rest: seq<Token>)
    requires Normal(t) && !StartsWith(rest, WithWord) && !StartsWith(rest, AndWord) && !StartsWith(rest, OrWord)
    ensures Expression(Print(t) + rest) == Some((t, rest))
    decreases t, 1
  {
    if t.AnyOf? {
      var alternatives := t.alternatives;
      var after := OrTail(alternatives[1..]) + rest;
      assert Print(t) + rest == PrintConjunction(alternatives[0]) + after;
      ConjunctionReadsBack(alternatives[0], after);
      MoreAlternativesReadBack([alternatives[0]], alternatives[1..], rest);
      assert [alternatives[0]] + alternatives[1..] == alternatives;
    } else {
      ConjunctionReadsBack(t, rest);
    }
  }

  /** Parsing undoes printing, and every token is consumed. */
  lemma RoundTrip(t: Tree)
    requires Normal(t)
    ensures Parse(Print(t)) == Some(t)
  {
    ReadsBack(t, []);
    assert Print(t) + [] == Print(t);
  }

  // ----- What is read is in normal form -----

  lemma {:induction false} TermIsNormal(ts: seq<Token>)
    ensures Term(ts).Some? ==> Normal(Term(ts).value.0)
    decreases |ts|, 0
  {
    if StartsWith(ts, Open) {
      ExpressionIsNormal(ts[1..]);
    }
  }

  lemma {:induction false} MoreTermsAreNormal(read: seq<Tree>, ts: seq<Token>)
    requires forall i :: 0 <= i < |read| ==> Normal(read[i])
    ensures MoreTerms(read, ts).Some? ==>
      var terms := MoreTerms(read, ts).value.0; |terms| >= |read| && forall i :: 0 <= i < |terms| ==> Normal(terms[i])
    decreases |ts|, 1
  {
    if StartsWith(ts, AndWord) {
      TermIsNormal(ts[1..]);
      if Term(ts[1..]).Some? {
        var (tree, rest) := Term(ts[1..]).value;
        MoreTermsAreNormal(read + [tree], rest);
      }
    }
  }

  lemma {:induction false} ConjunctionIsNormal(ts: seq<Token>)
    ensures Conjunction(ts).Some? ==> Normal(Conjunction(ts).value.0)
    decreases |ts|, 2
  {
    TermIsNormal(ts);
    if Term(ts).Some? {
      MoreTermsAreNormal([Term(ts).value.0], Term(ts).value.1);
    }
  }

  lemma {:induction false} MoreAlternativesAreNormal(read: seq<Tree>, ts: seq<Token>)
    requires forall i :: 0 <= i < |read| ==> Normal(read[i])
    ensures MoreAlternatives(read, ts).Some? ==>
      var all := MoreAlternatives(read, ts).value.0; |all| >= |read| && forall i :: 0 <= i < |all| ==> Normal(all[i])
    decreases |ts|, 3
  {
    if StartsWith(ts, OrWord) {
      ConjunctionIsNormal(ts[1..]);
      if Conjunction(ts[1..]).Some? {
        var (tree, rest) := Conjunction(ts[1..]).value;
        MoreAlternativesAreNormal(read + [tree], rest);
      }
    }
  }

  lemma {:induction false} ExpressionIsNormal(ts: seq<Token>)
    ensures Expression(ts).Some? ==> Normal(Expression(ts).value.0)
    decreases |ts|, 4
  {
    ConjunctionIsNormal(ts);
    if Conjunction(ts).Some? {
      MoreAlternativesAreNormal([Conjunction(ts).value.0], Conjunction(ts).value.1);
    }
  }

  /** The trees that parsing yields are exactly those in normal form. */
  lemma ParsedIsNormal(t: Tree)
    ensures (exists ts :: Parse(ts) == Some(t)) <==> Normal(t)
  {
    if Normal(t) {
      RoundTrip(t);
    }
    if ts :| Parse(ts) == Some(t) {
      ExpressionIsNormal(ts);
    }
  }
}
