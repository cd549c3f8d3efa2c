/** Cutting the text of an expression into tokens. */
module SpdxTokens {
  import opened SpdxGrammar

  /** What `\s` matches. */
  predicate IsSpace(c: char) {
    || c == ' ' || '\t' <= c <= '\r' || c == '\U{00A0}' || c == '\U{1680}' || '\U{2000}' <= c <= '\U{200A}'
    || c == '\U{2028}' || c == '\U{2029}' || c == '\U{202F}' || c == '\U{205F}' || c == '\U{3000}' || c == '\U{FEFF}'
  }

  predicate IsWordChar(c: char) {
    c != '(' && c != ')' && !IsSpace(c)
  }

  /** The old separator `/` means OR. */
  function Widened(text: string): string {
    if text == "" then "" else (if text[0] == '/' then " OR " else [text[0]]) + Widened(text[1..])
  }

  function WordLength(text: string): (n: nat)
    ensures n <= |text|
    ensures text != "" && IsWordChar(text[0]) ==> n > 0
  {
    if text == "" || !IsWordChar(text[0]) then 0 else 1 + WordLength(text[1..])
  }

  function Scan(text: string): seq<string>
    decreases |text|
  {
    if text == "" then []
    else if text[0] == '(' || text[0] == ')' then [[text[0]]] + Scan(text[1..])
    else if IsSpace(text[0]) then Scan(text[1..])
    else [text[..WordLength(text)]] + Scan(text[WordLength(text)..])
  }

  /** Upper case, as far as the operators are concerned; the dotless i is the one other letter that becomes one of theirs. */
  function Upper(c: char): char {
    if 'a' <= c <= 'z' then c - 'a' + 'A' else if c == '\U{0131}' then 'I' else c
  }

  predicate Means(word: string, operator: string) {
    |word| == |operator| && forall i :: 0 <= i < |word| ==> Upper(word[i]) == operator[i]
  }

  function Classify(word: string): Token {
    if word == "(" then Open
    else if word == ")" then Close
    else if Means(word, "AND") then AndWord
    else if Means(word, "OR") then OrWord
    else if Means(word, "WITH") then WithWord
    else Word(word)
  }

  function ClassifyAll(words: seq<string>): seq<Token> {
    if words == [] then [] else [Classify(words[0])] + ClassifyAll(words[1..])
  }

  function Tokenize(text: string): seq<Token> {
    ClassifyAll(Scan(Widened(text)))
  }

  // ----- Writing tokens out -----

  function Spelled(t: Token): string {
    match t
    case Open => "("
    case Close => ")"
    case AndWord => "AND"
    case OrWord => "OR"
    case WithWord => "WITH"
    case Word(text) => text
  }

  function Render(ts: seq<Token>): string {
    if ts == [] then "" else Spelled(ts[0]) + " " + Render(ts[1..])
  }

  /** A name that stands for itself: one word, without the old separator, and no operator. */
  predicate PlainWord(word: string) {
    && word != "" && (forall c :: c in word ==> IsWordChar(c) && c != '/')
    && Classify(word) == Word(word)
  }

  predicate PlainToken(t: Token) {
    t.Word? ==> PlainWord(t.text)
  }

  predicate PlainTree(t: Tree) {
    match t
    case License(id, exception) => PlainWord(id) && (exception.Some? ==> PlainWord(exception.value))
    case AllOf(terms) => forall i :: 0 <= i < |terms| ==> PlainTree(terms[i])
    case AnyOf(alternatives) => forall i :: 0 <= i < |alternatives| ==> PlainTree(alternatives[i])
  }

  lemma {:induction false} WidenedJoins(a: string, b: string)
    ensures Widened(a + b) == Widened(a) + Widened(b)
    decreases |a|
  {
    if a == "" {
      assert a + b == b;
    } else {
      var head := if a[0] == '/' then " OR " else [a[0]];
      WidenedJoins(a[1..], b);
      assert (a + b)[0] == a[0] && (a + b)[1..] == a[1..] + b;
      assert Widened(a + b) == head + Widened(a[1..] + b);
      assert Widened(a) == head + Widened(a[1..]);
    }
  }

  lemma {:induction false} WidenedPlain(a: string)
    requires '/' !in a
    ensures Widened(a) == a
    decreases |a|
  {
    if a != "" {
      WidenedPlain(a[1..]);
      assert [a[0]] + a[1..] == a;
    }
  }

  lemma {:induction false} WordStopsAtSpace(word: string, rest: string)
    requires forall c :: c in word ==> IsWordChar(c)
    ensures WordLength(word + " " + rest) == |word|
    decreases |word|
  {
    var text := word + " " + rest;
    if word == "" {
      assert text[0] == ' ';
    } else {
      assert text[0] == word[0] && word[0] in word;
      assert text[1..] == word[1..] + " " + rest;
      WordStopsAtSpace(word[1..], rest);
    }
  }

  lemma ScanWord(word: string, rest: string)
    requires word != "" && forall c :: c in word ==> IsWordChar(c)
    ensures Scan(word + " " + rest) == [word] + Scan(rest)
  {
    var text := word + " " + rest;
    WordStopsAtSpace(word, rest);
    assert text[0] == word[0] && word[0] in word;
    assert text[..|word|] == word && text[|word|..] == " " + rest;
    assert (" " + rest)[1..] == rest;
  }

  lemma ScanToken(t: Token, rest: string)
    requires PlainToken(t)
    ensures Scan(Spelled(t) + " " + rest) == [Spelled(t)] + Scan(rest)
  {
    if t.Open? || t.Close? {
      var text := Spelled(t) + " " + rest;
      assert text[1..] == " " + rest;
      assert (" " + rest)[1..] == rest;
    } else {
      ScanWord(Spelled(t), rest);
    }
  }

  lemma SpellingIsClassified(t: Token)
    requires PlainToken(t)
    ensures Classify(Spelled(t)) == t
  {
  }

  lemma SpelledHasNoSlash(t: Token)
    requires PlainToken(t)
    ensures '/' !in Spelled(t)
  {
  }

  lemma ScanRendered(ts: seq<Token>)
    requires ts != [] && PlainToken(ts[0])
    ensures Scan(Widened(Render(ts))) == [Spelled(ts[0])] + Scan(Widened(Render(ts[1..])))
  {
    var word, rest := Spelled(ts[0]), Render(ts[1..]);
    SpelledHasNoSlash(ts[0]);
    WidenedJoins(word + " ", rest);
    WidenedPlain(word + " ");
    ScanToken(ts[0], Widened(rest));
  }

  /** Cutting what was written out gives the same tokens. */
  lemma {:induction false} TokenizeUndoesRender(ts: seq<Token>)
    requires forall t :: t in ts ==> PlainToken(t)
    ensures Tokenize(Render(ts)) == ts
    decreases |ts|
  {
    if ts != [] {
      assert ts[0] in ts;
      TokenizeUndoesRender(ts[1..]);
      ScanRendered(ts);
      SpellingIsClassified(ts[0]);
      var words := Scan(Widened(Render(ts[1..])));
      assert ([Spelled(ts[0])] + words)[1..] == words;
      assert ts == [ts[0]] + ts[1..];
    }
  }

  // ----- The old separator -----

  lemma {:induction false} WordStopsThere(text: string, rest: string)
    ensures rest == "" || IsSpace(rest[0]) ==> WordLength(text + rest) == WordLength(text)
    decreases |text|
  {
    if text == "" {
      assert text + rest == rest;
    } else {
      assert (text + rest)[1..] == text[1..] + rest;
      WordStopsThere(text[1..], rest);
    }
  }

  /** A space ends whatever was being cut. */
  lemma {:induction false} ScanSplitsAtSpace(a: string, b: string)
    requires b != "" && IsSpace(b[0])
    ensures Scan(a + b) == Scan(a) + Scan(b)
    decreases |a|
  {
    var text := a + b;
    if a == "" {
      assert text == b;
    } else if !IsWordChar(a[0]) {
      assert text[1..] == a[1..] + b;
      ScanSplitsAtSpace(a[1..], b);
    } else {
      var n := WordLength(a);
      WordStopsThere(a, b);
      assert text[..n] == a[..n] && text[n..] == a[n..] + b;
      ScanSplitsAtSpace(a[n..], b);
    }
  }

  lemma {:induction false} ClassifyInTwo(a: seq<string>, b: seq<string>)
    ensures ClassifyAll(a + b) == ClassifyAll(a) + ClassifyAll(b)
    decreases |a|
  {
    if a == [] {
      assert a + b == b;
    } else {
      assert (a + b)[1..] == a[1..] + b;
      ClassifyInTwo(a[1..], b);
    }
  }

  lemma SlashIsWidened(x: string, y: string)
    ensures Widened(x + "/" + y) == Widened(x) + (" OR " + Widened(y))
  {
    WidenedJoins(x + "/", y);
    WidenedJoins(x, "/");
    assert "/"[1..] == "" && Widened("") == "";
    assert Widened("/") == " OR ";
  }

  lemma OrIsClassified(rest: seq<string>)
    ensures ClassifyAll(["OR"] + rest) == [OrWord] + ClassifyAll(rest)
  {
    assert (["OR"] + rest)[1..] == rest;
  }

  /** Whatever stands on its two sides, the old separator is cut as the operator OR between them. */
  lemma SlashSeparates(x: string, y: string)
    ensures Tokenize(x + "/" + y) == Tokenize(x) + [OrWord] + Tokenize(y)
  {
    var a, b := Widened(x), Widened(y);
    SlashIsWidened(x, y);
    ScanSplitsAtSpace(a, " OR " + b);
    OrIsCut(b);
    ClassifyInTwo(Scan(a), ["OR"] + Scan(b));
    OrIsClassified(Scan(b));
  }

  lemma OrIsCut(rest: string)
    ensures Scan(" OR " + rest) == ["OR"] + Scan(rest)
  {
    assert (" OR " + rest)[1..] == "OR" + " " + rest;
    ScanWord("OR", rest);
  }

  // ----- Printed trees have plain tokens -----

  ghost predicate AllPlain(ts: seq<Token>) {
    forall t :: t in ts ==> PlainToken(t)
  }

  lemma {:induction false} PrintTermIsPlain(t: Tree)
    requires PlainTree(t)
    ensures AllPlain(PrintTerm(t))
    decreases t, 3
  {
    if !t.License? {
      PrintIsPlain(t);
    }
  }

  lemma {:induction false} PrintConjunctionIsPlain(t: Tree)
    requires PlainTree(t)
    ensures AllPlain(PrintConjunction(t))
    decreases t, if t.AnyOf? then 2 else 0
  {
    match t
    case License(_, _) =>
    case AllOf(terms) =>
      if terms != [] {
        PrintTermIsPlain(terms[0]);
        AndTailIsPlain(terms[1..]);
      }
    case AnyOf(_) => PrintIsPlain(t);
  }

  lemma {:induction false} PrintIsPlain(t: Tree)
    requires PlainTree(t)
    ensures AllPlain(Print(t))
    decreases t, 1
  {
    if t.AnyOf? {
      if t.alternatives != [] {
        PrintConjunctionIsPlain(t.alternatives[0]);
        OrTailIsPlain(t.alternatives[1..]);
      }
    } else {
      PrintConjunctionIsPlain(t);
    }
  }

  lemma {:induction false} AndTailIsPlain(terms: seq<Tree>)
    requires forall i :: 0 <= i < |terms| ==> PlainTree(terms[i])
    ensures AllPlain(AndTail(terms))
    decreases terms, 4
  {
    if terms != [] {
      PrintTermIsPlain(terms[0]);
      AndTailIsPlain(terms[1..]);
    }
  }

  lemma {:induction false} OrTailIsPlain(alternatives: seq<Tree>)
    requires forall i :: 0 <= i < |alternatives| ==> PlainTree(alternatives[i])
    ensures AllPlain(OrTail(alternatives))
    decreases alternatives, 4
  {
    if alternatives != [] {
      PrintConjunctionIsPlain(alternatives[0]);
      OrTailIsPlain(alternatives[1..]);
    }
  }
}
