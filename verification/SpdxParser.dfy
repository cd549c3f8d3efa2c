/** The recursive descent parser that moves one cursor over the tokens. */
module SpdxParser {
  import opened Common
  import opened SpdxGrammar

  class Parser {
    const tokens: seq<Token>
    var at: nat

    ghost predicate Valid()
      reads this
    {
      at <= |tokens|
    }

    ghost function Remaining(): seq<Token>
      requires Valid()
      reads this
    {
      tokens[at..]
    }

    constructor (tokens: seq<Token>)
      ensures this.tokens == tokens && at == 0
    {
      this.tokens := tokens;
      at := 0;
    }

    /** The result and the cursor agree with the grammar. */
    ghost predicate Follows(r: Option<Tree>, expected: Read)
      requires Valid()
      reads this
    {
      match expected
      case None => r.None?
      case Some((tree, rest)) => r == Some(tree) && Remaining() == rest
    }

    method Peek() returns (t: Option<Token>)
      requires Valid()
      ensures t == if Remaining() == [] then None else Some(Remaining()[0])
    {
      return if at < |tokens| then Some(tokens[at]) else None;
    }

    method ReadTerm() returns (r: Option<Tree>)
      requires Valid()
      modifies this`at
      ensures Valid() && Follows(r, Term(old(Remaining())))
      ensures r.Some? ==> at > old(at)
      decreases |tokens| - at, 0
    {
      ghost var ts := Remaining();
      if at == |tokens| {
        return None;
      }
      var token := tokens[at];
      at := at + 1;
      assert Remaining() == ts[1..];
      match token
      case Open =>
        r := ReadExpression();
        if r.None? {
          return;
        }
        if at == |tokens| || tokens[at] != Close {
          return None;
        }
        at := at + 1;
      case Word(id) =>
        r := Some(License(id, None));
        var next := Peek();
        if next == Some(WithWord) {
          at := at + 1;
          assert Remaining() == ts[2..];
          if at == |tokens| || !tokens[at].Word? {
            return None;
          }
          r := Some(License(id, Some(tokens[at].text)));
          at := at + 1;
        }
      case _ =>
        return None;
    }

    method ReadConjunction() returns (r: Option<Tree>)
      requires Valid()
      modifies this`at
      ensures Valid() && Follows(r, Conjunction(old(Remaining())))
      ensures r.Some? ==> at > old(at)
      decreases |tokens| - at, 2
    {
      r := ReadTerm();
      if r.None? {
        return;
      }
      var terms := [r.value];
      ghost var goal := MoreTerms(terms, Remaining());
      while at < |tokens| && tokens[at] == AndWord
        invariant Valid() && at > old(at) && |terms| >= 1
        invariant MoreTerms(terms, Remaining()) == goal
        decreases |tokens| - at
      {
        ghost var ts := Remaining();
        at := at + 1;
        assert Remaining() == ts[1..];
        var next := ReadTerm();
        if next.None? {
          return None;
        }
        terms := terms + [next.value];
      }
      return Some(if |terms| == 1 then terms[0] else AllOf(terms));
    }

    method ReadExpression() returns (r: Option<Tree>)
      requires Valid()
      modifies this`at
      ensures Valid() && Follows(r, Expression(old(Remaining())))
      ensures r.Some? ==> at > old(at)
      decreases |tokens| - at, 4
    {
      r := ReadConjunction();
      if r.None? {
        return;
      }
      var alternatives := [r.value];
      ghost var goal := MoreAlternatives(alternatives, Remaining());
      while at < |tokens| && tokens[at] == OrWord
        invariant Valid() && at > old(at) && |alternatives| >= 1
        invariant MoreAlternatives(alternatives, Remaining()) == goal
        decreases |tokens| - at
      {
        ghost var ts := Remaining();
        at := at + 1;
        assert Remaining() == ts[1..];
        var next := ReadConjunction();
        if next.None? {
          return None;
        }
        alternatives := alternatives + [next.value];
      }
      return Some(if |alternatives| == 1 then alternatives[0] else AnyOf(alternatives));
    }
  }

  /** Parses all of the tokens or fails. */
  method ParseTokens(tokens: seq<Token>) returns (r: Option<Tree>)
    ensures r == Parse(tokens)
  {
    var parser := new Parser(tokens);
    assert parser.Remaining() == tokens;
    r := parser.ReadExpression();
    if r.Some? && parser.at != |tokens| {
      return None;
    }
  }
}
