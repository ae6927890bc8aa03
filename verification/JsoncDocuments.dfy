/** JSON documents, decorated with white space, comments and trailing commas, and what the two passes make of them. */
module JsoncDocuments {
  import opened Common
  import opened Jsonc

  // ----- tokens and the reference lexer -----

  /** `Text` holds what stands between the quotes, escapes and all; `Scalar` is a number or a literal name. */
  datatype Token = Punct(c: char) | Scalar(text: string) | Text(body: string)

  predicate Structural(c: char) {
    c in "{}[]:,"
  }

  predicate JsonSpace(c: char) {
    c == ' ' || c == '\t' || c == '\n' || c == '\r'
  }

  predicate ScalarChar(c: char) {
    'a' <= c <= 'z' || 'A' <= c <= 'Z' || '0' <= c <= '9' || c in "-+."
  }

  /** Numbers, true, false and null are made of such characters. */
  lemma ScalarsOfJson()
    ensures forall c <- "0123456789" :: ScalarChar(c)
    ensures forall c <- "+-.eE" :: ScalarChar(c)
    ensures forall c <- "truefalsenull" :: ScalarChar(c)
  {
  }

  /** The body ends with no open escape and holds no unescaped quote. */
  predicate Quotable(body: string, escaped: bool) {
    if body == "" then !escaped
    else if escaped then Quotable(body[1..], false)
    else body[0] != '"' && Quotable(body[1..], body[0] == '\\')
  }

  predicate WellFormed(token: Token) {
    match token
    case Punct(c) => Structural(c)
    case Scalar(text) => text != "" && forall c <- text :: ScalarChar(c)
    case Text(body) => Quotable(body, false)
  }

  function TokenText(token: Token): string {
    match token
    case Punct(c) => [c]
    case Scalar(text) => text
    case Text(body) => "\"" + body + "\""
  }

  function StringEnd(text: string, escaped: bool): (end: Option<nat>)
    ensures end.Some? ==> end.value < |text|
  {
    if text == "" then None
    else if !escaped && text[0] == '"' then Some(0)
    else
      var rest := StringEnd(text[1..], !escaped && text[0] == '\\');
      if rest.None? then None else Some(rest.value + 1)
  }

  function ScalarEnd(text: string): (end: nat)
    ensures end <= |text|
  {
    if text != "" && ScalarChar(text[0]) then ScalarEnd(text[1..]) + 1 else 0
  }

  function Cons(token: Token, tokens: Option<seq<Token>>): Option<seq<Token>> {
    if tokens.None? then None else Some([token] + tokens.value)
  }

  /** The tokens of a JSON text, as section 2 of RFC 8259 separates them. */
  function Lex(text: string): Option<seq<Token>>
    decreases |text|
  {
    if text == "" then Some([])
    else if JsonSpace(text[0]) then Lex(text[1..])
    else if Structural(text[0]) then Cons(Punct(text[0]), Lex(text[1..]))
    else if text[0] == '"' then
      var end := StringEnd(text[1..], false);
      if end.None? then None else Cons(Text(text[1..][..end.value]), Lex(text[1..][end.value + 1..]))
    else if ScalarChar(text[0]) then Cons(Scalar(text[..ScalarEnd(text)]), Lex(text[ScalarEnd(text)..]))
    else None
  }

  lemma {:induction false} StringEndOf(body: string, escaped: bool, rest: string)
    requires Quotable(body, escaped)
    ensures StringEnd(body + "\"" + rest, escaped) == Some(|body|)
  {
    var text := body + "\"" + rest;
    if body != "" {
      assert text[1..] == body[1..] + "\"" + rest;
      StringEndOf(body[1..], !escaped && body[0] == '\\', rest);
    }
  }

  lemma {:induction false} ScalarEndOf(scalar: string, rest: string)
    requires forall c <- scalar :: ScalarChar(c)
    requires rest == "" || !ScalarChar(rest[0])
    ensures ScalarEnd(scalar + rest) == |scalar|
  {
    if scalar == "" {
      assert scalar + rest == rest;
    } else {
      assert (scalar + rest)[1..] == scalar[1..] + rest;
      ScalarEndOf(scalar[1..], rest);
    }
  }

  lemma LexText(body: string, rest: string)
    requires Quotable(body, false)
    ensures Lex(TokenText(Text(body)) + rest) == Cons(Text(body), Lex(rest))
  {
    var text := TokenText(Text(body)) + rest;
    assert text[1..] == body + "\"" + rest;
    StringEndOf(body, false, rest);
    assert text[1..][..|body|] == body && text[1..][|body| + 1..] == rest;
  }

  lemma LexScalar(scalar: string, rest: string)
    requires WellFormed(Scalar(scalar)) && (rest == "" || !ScalarChar(rest[0]))
    ensures Lex(scalar + rest) == Cons(Scalar(scalar), Lex(rest))
  {
    var text := scalar + rest;
    assert text[0] == scalar[0] && scalar[0] in scalar;
    ScalarEndOf(scalar, rest);
    assert text[..|scalar|] == scalar && text[|scalar|..] == rest;
  }

  lemma LexToken(token: Token, rest: string)
    requires WellFormed(token)
    requires token.Scalar? ==> rest == "" || !ScalarChar(rest[0])
    ensures Lex(TokenText(token) + rest) == Cons(token, Lex(rest))
  {
    var text := TokenText(token) + rest;
    match token
    case Punct(c) =>
      assert text[1..] == rest;
    case Scalar(scalar) => LexScalar(scalar, rest);
    case Text(body) =>
      LexText(body, rest);
  }

  // ----- decorated documents -----

  datatype Piece = Plain(token: Token) | Space(c: char) | LineComment(body: string) | BlockComment(body: string)

  ghost predicate WellFormedPiece(piece: Piece) {
    match piece
    case Plain(token) => WellFormed(token)
    case Space(c) => JsonSpace(c)
    case LineComment(body) => '\n' !in body
    case BlockComment(body) => forall i: nat :: !ClosesAt(body, i)
  }

  function PieceText(piece: Piece): string {
    match piece
    case Plain(token) => TokenText(token)
    case Space(c) => [c]
    case LineComment(body) => "//" + body + "\n"
    case BlockComment(body) => "/*" + body + "*/"
  }

  function Render(pieces: seq<Piece>): string {
    if pieces == [] then "" else PieceText(pieces[0]) + Render(pieces[1..])
  }

  ghost predicate WellFormedPieces(pieces: seq<Piece>) {
    forall piece <- pieces :: WellFormedPiece(piece)
  }

  function TokensOf(pieces: seq<Piece>): seq<Token> {
    if pieces == [] then []
    else if pieces[0].Plain? then [pieces[0].token] + TokensOf(pieces[1..])
    else TokensOf(pieces[1..])
  }

  function Spaces(text: string): seq<Piece> {
    if text == "" then [] else [Space(text[0])] + Spaces(text[1..])
  }

  function CleanPiece(piece: Piece): seq<Piece> {
    match piece
    case LineComment(_) => [Space('\n')]
    case BlockComment(body) => Spaces(Blank(body))
    case _ => [piece]
  }

  /** The document after the first pass. */
  function Clean(pieces: seq<Piece>): seq<Piece> {
    if pieces == [] then [] else CleanPiece(pieces[0]) + Clean(pieces[1..])
  }

  // ----- the first pass on a document -----

  lemma {:induction false} CopyPlain(text: string, rest: string)
    requires '"' !in text && '/' !in text
    ensures StripComments(text + rest, Outside) == Prepend(text, StripComments(rest, Outside))
  {
    if text == "" {
      assert text + rest == rest;
      PrependNothing(StripComments(rest, Outside));
    } else {
      assert text[0] in text && (text + rest)[1..] == text[1..] + rest;
      CopyPlain(text[1..], rest);
      PrependTwice([text[0]], text[1..], StripComments(rest, Outside));
      assert [text[0]] + text[1..] == text;
    }
  }

  lemma {:induction false} CopyBody(body: string, escaped: bool, rest: string)
    requires Quotable(body, escaped)
    ensures StripComments(body + "\"" + rest, ModeOf(true, escaped)) ==
              Prepend(body + "\"", StripComments(rest, Outside))
  {
    var text := body + "\"" + rest;
    if body == "" {
      assert text[1..] == rest && body + "\"" == [text[0]];
    } else {
      var escaped' := !escaped && body[0] == '\\';
      assert text[1..] == body[1..] + "\"" + rest;
      CopyBody(body[1..], escaped', rest);
      PrependTwice([body[0]], body[1..] + "\"", StripComments(rest, Outside));
      assert [body[0]] + (body[1..] + "\"") == body + "\"";
    }
  }

  lemma CopyText(body: string, rest: string)
    requires Quotable(body, false)
    ensures var text := TokenText(Text(body));
            StripComments(text + rest, Outside) == Prepend(text, StripComments(rest, Outside))
  {
    var text := TokenText(Text(body));
    assert (text + rest)[1..] == body + "\"" + rest;
    CopyBody(body, false, rest);
    PrependTwice("\"", body + "\"", StripComments(rest, Outside));
    assert "\"" + (body + "\"") == text;
  }

  lemma {:induction false} LineEndOf(text: string, rest: string)
    requires '\n' !in text
    ensures LineEnd(text + "\n" + rest) == |text|
  {
    var all := text + "\n" + rest;
    if text != "" {
      assert all[1..] == text[1..] + "\n" + rest;
      LineEndOf(text[1..], rest);
    }
  }

  lemma DropLineComment(body: string, rest: string)
    requires '\n' !in body
    ensures StripComments(PieceText(LineComment(body)) + rest, Outside) == Prepend("\n", StripComments(rest, Outside))
  {
    var text := PieceText(LineComment(body)) + rest;
    assert text == ("//" + body) + "\n" + rest;
    LineEndOf("//" + body, rest);
    assert text[LineEnd(text) + 1..] == rest;
  }

  lemma DropBlockComment(body: string, rest: string)
    requires WellFormedPiece(BlockComment(body))
    ensures StripComments(PieceText(BlockComment(body)) + rest, Outside) ==
              Prepend(Blank(body), StripComments(rest, Outside))
  {
    var text := PieceText(BlockComment(body)) + rest;
    var inner := body + "*/" + rest;
    assert text[2..] == inner;
    assert ClosesAt(inner, |body|);
    forall i: nat | i < |body| ensures !ClosesAt(inner, i) {
      assert !ClosesAt(body, i);
    }
    var end := BlockEnd(inner).value;
    assert end == |body|;
    assert inner[..end] == body && inner[end + 2..] == rest;
  }

  lemma Associate<T>(left: seq<T>, middle: seq<T>, right: seq<T>)
    ensures left + (middle + right) == left + middle + right
  {
  }

  lemma RenderCons(piece: Piece, pieces: seq<Piece>)
    ensures Render([piece] + pieces) == PieceText(piece) + Render(pieces)
  {
    assert ([piece] + pieces)[1..] == pieces;
  }

  lemma {:induction false} RenderSpaces(text: string, pieces: seq<Piece>)
    ensures Render(Spaces(text) + pieces) == text + Render(pieces)
  {
    if text == "" {
      assert Spaces(text) + pieces == pieces;
      assert text + Render(pieces) == Render(pieces);
    } else {
      var head, tail := text[0], text[1..];
      RenderSpaces(tail, pieces);
      RenderCons(Space(head), Spaces(tail) + pieces);
      Associate([Space(head)], Spaces(tail), pieces);
      Associate([head], tail, Render(pieces));
      assert [head] + tail == text;
    }
  }

  /** One piece of the document goes through the first pass on its own. */
  lemma StripPiece(piece: Piece, rest: string, clean: seq<Piece>)
    requires WellFormedPiece(piece)
    requires StripComments(rest, Outside) == Some(Render(clean))
    ensures StripComments(PieceText(piece) + rest, Outside) == Some(Render(CleanPiece(piece) + clean))
  {
    match piece
    case LineComment(body) =>
      DropLineComment(body, rest);
      RenderSpaces("\n", clean);
      assert Spaces("\n") == [Space('\n')];
    case BlockComment(body) =>
      DropBlockComment(body, rest);
      RenderSpaces(Blank(body), clean);
    case Space(c) =>
      CopyPlain([c], rest);
      RenderCons(piece, clean);
    case Plain(token) =>
      CopyToken(token, rest);
      RenderCons(piece, clean);
  }

  lemma CopyToken(token: Token, rest: string)
    requires WellFormed(token)
    ensures StripComments(TokenText(token) + rest, Outside) == Prepend(TokenText(token), StripComments(rest, Outside))
  {
    match token
    case Punct(c) => CopyPlain([c], rest);
    case Scalar(text) =>
      assert !ScalarChar('"') && !ScalarChar('/');
      CopyPlain(text, rest);
    case Text(body) => CopyText(body, rest);
  }

  /** A document may end in a line comment without a newline. */
  datatype Ending = Complete | OpenLineComment(body: string)

  function EndingText(ending: Ending): string {
    match ending
    case Complete => ""
    case OpenLineComment(body) => "//" + body
  }

  function CleanEnding(ending: Ending): seq<Piece> {
    if ending.Complete? then [] else [Space('\n')]
  }

  predicate WellFormedEnding(ending: Ending) {
    ending.OpenLineComment? ==> '\n' !in ending.body
  }

  lemma {:induction false} LineEndAtEnd(text: string)
    requires '\n' !in text
    ensures LineEnd(text) == |text|
  {
    if text != "" {
      LineEndAtEnd(text[1..]);
    }
  }

  lemma EndingPass(ending: Ending)
    requires WellFormedEnding(ending)
    ensures StripComments(EndingText(ending), Outside) == Some(Render(CleanEnding(ending)))
  {
    if ending.OpenLineComment? {
      LineEndAtEnd(EndingText(ending));
      RenderCons(Space('\n'), []);
    }
  }

  /** The first pass keeps the tokens and the white space, and turns comments into white space. */
  lemma {:induction false} FirstPass(pieces: seq<Piece>, ending: Ending)
    requires WellFormedPieces(pieces) && WellFormedEnding(ending)
    ensures StripComments(Render(pieces) + EndingText(ending), Outside) ==
              Some(Render(Clean(pieces) + CleanEnding(ending)))
  {
    hide StripComments;
    EndingPass(ending);
    if pieces == [] {
      assert Render(pieces) + EndingText(ending) == EndingText(ending);
      assert Clean(pieces) + CleanEnding(ending) == CleanEnding(ending);
    } else {
      FirstPass(pieces[1..], ending);
      StripPiece(pieces[0], Render(pieces[1..]) + EndingText(ending), Clean(pieces[1..]) + CleanEnding(ending));
      Associate(PieceText(pieces[0]), Render(pieces[1..]), EndingText(ending));
      Associate(CleanPiece(pieces[0]), Clean(pieces[1..]), CleanEnding(ending));
    }
  }

  /** A block comment that is never closed is an error, wherever in the document it starts. */
  lemma {:induction false} UnterminatedIsAnError(pieces: seq<Piece>, body: string)
    requires WellFormedPieces(pieces) && forall i: nat :: !ClosesAt(body, i)
    ensures StripComments(Render(pieces) + "/*" + body, Outside) == None
  {
    var tail := "/*" + body;
    if pieces == [] {
      assert Render(pieces) + "/*" + body == tail && tail[2..] == body;
    } else {
      UnterminatedIsAnError(pieces[1..], body);
      var rest := Render(pieces[1..]) + "/*" + body;
      assert Render(pieces) + "/*" + body == PieceText(pieces[0]) + rest;
      assert pieces[0] in pieces;
      match pieces[0]
      case LineComment(comment) => DropLineComment(comment, rest);
      case BlockComment(comment) => DropBlockComment(comment, rest);
      case Space(c) => CopyPlain([c], rest);
      case Plain(token) => CopyToken(token, rest);
    }
  }
}
