/** What the two passes make of a decorated JSON document: exactly the tokens of the bare document. */
module JsoncTheorem {
  import opened Common
  import opened Jsonc
  import opened JsoncDocuments

  const COMMA := Punct(',')

  predicate IsCloser(token: Token) {
    token.Punct? && Closer(token.c)
  }

  // ----- the grammar -----

  /** A JSON value in the grammar of section 2 of RFC 8259; numbers and literal names are atoms. */
  datatype Json = Atom(text: string) | Str(body: string) | Arr(items: seq<Json>) | Obj(members: seq<Member>)
  datatype Member = Member(name: string, value: Json)

  predicate Legal(json: Json) {
    match json
    case Atom(text) => WellFormed(Scalar(text))
    case Str(body) => WellFormed(Text(body))
    case Arr(items) => forall i | 0 <= i < |items| :: Legal(items[i])
    case Obj(members) => forall i | 0 <= i < |members| :: WellFormed(Text(members[i].name)) && Legal(members[i].value)
  }

  function JsonTokens(json: Json): seq<Token>
    decreases json
  {
    match json
    case Atom(text) => [Scalar(text)]
    case Str(body) => [Text(body)]
    case Arr(items) => [Punct('[')] + ItemsTokens(items) + [Punct(']')]
    case Obj(members) => [Punct('{')] + MembersTokens(members) + [Punct('}')]
  }

  function ItemsTokens(items: seq<Json>): seq<Token>
    decreases items
  {
    if items == [] then []
    else if |items| == 1 then JsonTokens(items[0])
    else JsonTokens(items[0]) + [COMMA] + ItemsTokens(items[1..])
  }

  function MemberTokens(member: Member): seq<Token>
    decreases member
  {
    [Text(member.name), Punct(':')] + JsonTokens(member.value)
  }

  function MembersTokens(members: seq<Member>): seq<Token>
    decreases members
  {
    if members == [] then []
    else if |members| == 1 then MemberTokens(members[0])
    else MemberTokens(members[0]) + [COMMA] + MembersTokens(members[1..])
  }

  /** In a document no two scalars meet, and no comma stands before a closer. */
  predicate Joins(left: Token, right: Token) {
    !(left.Scalar? && right.Scalar?) && !(left == COMMA && IsCloser(right))
  }

  predicate Chain(tokens: seq<Token>) {
    forall i | 0 <= i < |tokens| - 1 :: Joins(tokens[i], tokens[i + 1])
  }

  /** Such a run of tokens can stand between any two punctuators. */
  predicate Solid(tokens: seq<Token>) {
    && tokens != [] && (forall token <- tokens :: WellFormed(token)) && Chain(tokens)
    && !IsCloser(tokens[0]) && Last(tokens) != COMMA
  }

  lemma SolidJoin(left: seq<Token>, separator: Token, right: seq<Token>)
    requires Solid(left) && Solid(right) && separator.Punct? && WellFormed(separator) && !IsCloser(separator)
    ensures Solid(left + [separator] + right)
  {
    var all := left + [separator] + right;
    forall i | 0 <= i < |all| - 1 ensures Joins(all[i], all[i + 1]) {
      if i < |left| - 1 {
        assert Joins(left[i], left[i + 1]);
      } else if i > |left| {
        assert Joins(right[i - |left| - 1], right[i - |left|]);
      }
    }
  }

  lemma SolidBrackets(open: char, inner: seq<Token>, close: char)
    requires Structural(open) && !Closer(open) && open != ',' && Structural(close) && close != ','
    requires inner == [] || Solid(inner)
    ensures Solid([Punct(open)] + inner + [Punct(close)])
  {
    var all := [Punct(open)] + inner + [Punct(close)];
    forall i | 0 <= i < |all| - 1 ensures Joins(all[i], all[i + 1]) {
      if 0 < i < |inner| {
        assert Joins(inner[i - 1], inner[i]);
      }
    }
  }

  lemma {:induction false} DocumentIsSolid(json: Json)
    requires Legal(json)
    ensures Solid(JsonTokens(json))
    decreases json
  {
    match json
    case Atom(_) =>
    case Str(_) =>
    case Arr(items) =>
      ItemsAreSolid(items);
      SolidBrackets('[', ItemsTokens(items), ']');
    case Obj(members) =>
      MembersAreSolid(members);
      SolidBrackets('{', MembersTokens(members), '}');
  }

  lemma {:induction false} ItemsAreSolid(items: seq<Json>)
    requires forall i | 0 <= i < |items| :: Legal(items[i])
    ensures items == [] || Solid(ItemsTokens(items))
    decreases items
  {
    if items != [] {
      DocumentIsSolid(items[0]);
      ItemsAreSolid(items[1..]);
      if |items| > 1 {
        SolidJoin(JsonTokens(items[0]), COMMA, ItemsTokens(items[1..]));
      }
    }
  }

  lemma {:induction false} MembersAreSolid(members: seq<Member>)
    requires forall i | 0 <= i < |members| :: WellFormed(Text(members[i].name)) && Legal(members[i].value)
    ensures members == [] || Solid(MembersTokens(members))
    decreases members
  {
    if members != [] {
      var member := members[0];
      DocumentIsSolid(member.value);
      SolidJoin([Text(member.name)], Punct(':'), JsonTokens(member.value));
      assert [Text(member.name)] + [Punct(':')] == [Text(member.name), Punct(':')];
      MembersAreSolid(members[1..]);
      if |members| > 1 {
        SolidJoin(MemberTokens(member), COMMA, MembersTokens(members[1..]));
      }
    }
  }

  // ----- trailing commas on tokens -----

  /** The document with a comma put before each closer for which `commas` says so. */
  function WithTrailingCommas(tokens: seq<Token>, commas: seq<bool>): seq<Token>
    requires |commas| == |tokens|
  {
    if tokens == [] then []
    else
      var rest := WithTrailingCommas(tokens[1..], commas[1..]);
      if commas[0] && IsCloser(tokens[0]) then [COMMA, tokens[0]] + rest else [tokens[0]] + rest
  }

  predicate StartsWithCloser(tokens: seq<Token>) {
    tokens != [] && IsCloser(tokens[0])
  }

  function DropTrailing(tokens: seq<Token>): seq<Token> {
    if tokens == [] then []
    else if tokens[0] == COMMA && StartsWithCloser(tokens[1..]) then DropTrailing(tokens[1..])
    else [tokens[0]] + DropTrailing(tokens[1..])
  }

  lemma DropTrailingCons(token: Token, rest: seq<Token>)
    ensures DropTrailing([token] + rest) ==
            if token == COMMA && StartsWithCloser(rest) then DropTrailing(rest) else [token] + DropTrailing(rest)
  {
    assert ([token] + rest)[1..] == rest;
  }

  lemma {:induction false} DropUndoesTrailing(tokens: seq<Token>, commas: seq<bool>)
    requires |commas| == |tokens| && Chain(tokens)
    ensures DropTrailing(WithTrailingCommas(tokens, commas)) == tokens
  {
    if tokens != [] {
      var rest := WithTrailingCommas(tokens[1..], commas[1..]);
      assert Chain(tokens[1..]) by {
        forall i | 0 <= i < |tokens[1..]| - 1 ensures Joins(tokens[1..][i], tokens[1..][i + 1]) {
          assert Joins(tokens[i + 1], tokens[i + 2]);
        }
      }
      DropUndoesTrailing(tokens[1..], commas[1..]);
      assert |tokens| > 1 ==> Joins(tokens[0], tokens[1]);
      DropTrailingCons(tokens[0], rest);
      assert [COMMA, tokens[0]] + rest == [COMMA] + ([tokens[0]] + rest);
      DropTrailingCons(COMMA, [tokens[0]] + rest);
    }
  }

  // ----- the second pass on a document without comments -----

  predicate BarePiece(piece: Piece) {
    match piece
    case Plain(token) => WellFormed(token)
    case Space(c) => JsonSpace(c)
    case _ => false
  }

  predicate Bare(pieces: seq<Piece>) {
    forall piece <- pieces :: BarePiece(piece)
  }

  function DropCommas(pieces: seq<Piece>): seq<Piece> {
    if pieces == [] then []
    else if pieces[0] == Plain(COMMA) && StartsWithCloser(TokensOf(pieces[1..])) then DropCommas(pieces[1..])
    else [pieces[0]] + DropCommas(pieces[1..])
  }

  lemma BareRest(pieces: seq<Piece>)
    requires Bare(pieces) && pieces != []
    ensures Bare(pieces[1..])
    ensures pieces[0].Plain? ==> WellFormed(pieces[0].token)
    ensures pieces[0].Space? ==> JsonSpace(pieces[0].c)
    ensures pieces[0].Plain? || pieces[0].Space?
    ensures [pieces[0]] + pieces[1..] == pieces
  {
    assert BarePiece(pieces[0]);
    assert forall piece <- pieces[1..] :: piece in pieces;
  }

  lemma TokenStart(token: Token)
    requires WellFormed(token)
    ensures var c := TokenText(token)[0];
            |TokenText(token)| > 0 && !RegexSpace(c) && !JsonSpace(c) && (Closer(c) <==> IsCloser(token))
            && (ScalarChar(c) <==> token.Scalar?)
  {
    if token.Scalar? {
      assert token.text[0] in token.text;
    }
  }

  /** The lookahead sees a closer exactly when the next token is one. */
  lemma {:induction false} LookaheadSeesTokens(pieces: seq<Piece>)
    requires Bare(pieces)
    ensures ClosesNext(Render(pieces)) <==> StartsWithCloser(TokensOf(pieces))
  {
    if pieces != [] {
      BareRest(pieces);
      var rest := Render(pieces[1..]);
      if pieces[0].Space? {
        LookaheadSeesTokens(pieces[1..]);
        assert ([pieces[0].c] + rest)[1..] == rest;
      } else {
        TokenStart(pieces[0].token);
        assert SkipSpace(Render(pieces)) == Render(pieces);
      }
    }
  }

  lemma {:induction false} KeepPlain(text: string, rest: string)
    requires '"' !in text && ',' !in text
    ensures StripTrailingCommas(text + rest, Outside) == text + StripTrailingCommas(rest, Outside)
  {
    if text == "" {
      assert text + rest == rest;
    } else {
      assert text[0] in text && (text + rest)[1..] == text[1..] + rest;
      KeepPlain(text[1..], rest);
      Associate([text[0]], text[1..], StripTrailingCommas(rest, Outside));
      assert [text[0]] + text[1..] == text;
    }
  }

  lemma {:induction false} KeepBody(body: string, escaped: bool, rest: string)
    requires Quotable(body, escaped)
    ensures StripTrailingCommas(body + "\"" + rest, ModeOf(true, escaped)) ==
              body + "\"" + StripTrailingCommas(rest, Outside)
  {
    var text := body + "\"" + rest;
    var out := StripTrailingCommas(rest, Outside);
    if body == "" {
      assert text[1..] == rest;
      assert body + "\"" + out == [text[0]] + out;
    } else {
      assert text[1..] == body[1..] + "\"" + rest;
      KeepBody(body[1..], !escaped && body[0] == '\\', rest);
      assert [body[0]] + (body[1..] + "\"" + out) == body + "\"" + out;
    }
  }

  lemma KeepToken(token: Token, rest: string)
    requires WellFormed(token) && token != COMMA
    ensures StripTrailingCommas(TokenText(token) + rest, Outside) ==
              TokenText(token) + StripTrailingCommas(rest, Outside)
  {
    match token
    case Punct(c) => KeepPlain([c], rest);
    case Scalar(text) =>
      assert !ScalarChar('"') && !ScalarChar(',');
      KeepPlain(text, rest);
    case Text(body) =>
      var text := TokenText(token);
      assert (text + rest)[1..] == body + "\"" + rest;
      KeepBody(body, false, rest);
      assert "\"" + (body + "\"" + StripTrailingCommas(rest, Outside)) == text + StripTrailingCommas(rest, Outside);
  }

  lemma {:induction false} SecondPass(pieces: seq<Piece>)
    requires Bare(pieces)
    ensures StripTrailingCommas(Render(pieces), Outside) == Render(DropCommas(pieces))
  {
    if pieces != [] {
      BareRest(pieces);
      var rest := Render(pieces[1..]);
      SecondPass(pieces[1..]);
      RenderCons(pieces[0], DropCommas(pieces[1..]));
      if pieces[0] == Plain(COMMA) {
        LookaheadSeesTokens(pieces[1..]);
        assert ("," + rest)[1..] == rest;
      } else if pieces[0].Space? {
        KeepPlain([pieces[0].c], rest);
      } else {
        KeepToken(pieces[0].token, rest);
      }
    }
  }

  lemma {:induction false} DropCommasOnTokens(pieces: seq<Piece>)
    requires Bare(pieces)
    ensures Bare(DropCommas(pieces))
    ensures TokensOf(DropCommas(pieces)) == DropTrailing(TokensOf(pieces))
  {
    if pieces != [] {
      BareRest(pieces);
      DropCommasOnTokens(pieces[1..]);
      var rest := DropCommas(pieces[1..]);
      TokensOfCons(pieces[0], pieces[1..]);
      assert [pieces[0]] + pieces[1..] == pieces;
      TokensOfCons(pieces[0], rest);
      if pieces[0].Plain? {
        DropTrailingCons(pieces[0].token, TokensOf(pieces[1..]));
      }
    }
  }

  lemma TokensOfCons(piece: Piece, pieces: seq<Piece>)
    ensures TokensOf([piece] + pieces) == if piece.Plain? then [piece.token] + TokensOf(pieces) else TokensOf(pieces)
  {
    assert ([piece] + pieces)[1..] == pieces;
  }

  lemma {:induction false} TokensOfJoin(left: seq<Piece>, right: seq<Piece>)
    ensures TokensOf(left + right) == TokensOf(left) + TokensOf(right)
  {
    if left == [] {
      assert left + right == right;
    } else {
      assert (left + right)[1..] == left[1..] + right;
      TokensOfJoin(left[1..], right);
    }
  }

  lemma {:induction false} SpacesHaveNoTokens(text: string)
    requires forall c <- text :: JsonSpace(c)
    ensures TokensOf(Spaces(text)) == [] && Bare(Spaces(text))
  {
    if text != "" {
      assert text[0] in text;
      SpacesHaveNoTokens(text[1..]);
      TokensOfCons(Space(text[0]), Spaces(text[1..]));
    }
  }

  lemma {:induction false} BlankIsSpace(body: string)
    ensures forall c <- Blank(body) :: JsonSpace(c)
  {
    if body != "" {
      BlankIsSpace(body[1..]);
    }
  }

  lemma CleanPieceKeepsTokens(piece: Piece)
    requires WellFormedPiece(piece)
    ensures TokensOf(CleanPiece(piece)) == TokensOf([piece]) && Bare(CleanPiece(piece))
  {
    if piece.BlockComment? {
      BlankIsSpace(piece.body);
      SpacesHaveNoTokens(Blank(piece.body));
    }
  }

  lemma {:induction false} CleanKeepsTokens(pieces: seq<Piece>)
    requires WellFormedPieces(pieces)
    ensures TokensOf(Clean(pieces)) == TokensOf(pieces) && Bare(Clean(pieces))
  {
    if pieces != [] {
      assert pieces[0] in pieces;
      CleanPieceKeepsTokens(pieces[0]);
      CleanKeepsTokens(pieces[1..]);
      TokensOfJoin(CleanPiece(pieces[0]), Clean(pieces[1..]));
      TokensOfCons(pieces[0], []);
    }
  }

  // ----- the lexer on the result -----

  lemma {:induction false} LexBare(pieces: seq<Piece>)
    requires Bare(pieces) && Chain(TokensOf(pieces))
    ensures Lex(Render(pieces)) == Some(TokensOf(pieces))
  {
    if pieces != [] {
      BareRest(pieces);
      var tokens := TokensOf(pieces[1..]);
      var rest := Render(pieces[1..]);
      if pieces[0].Space? {
        LexBare(pieces[1..]);
        assert ([pieces[0].c] + rest)[1..] == rest;
      } else {
        ChainRest(pieces[0].token, tokens);
        LexBare(pieces[1..]);
        if pieces[0].token.Scalar? {
          NoScalarFollows(pieces[1..]);
        }
        LexToken(pieces[0].token, rest);
      }
    }
  }

  lemma ChainRest(token: Token, tokens: seq<Token>)
    requires Chain([token] + tokens)
    ensures Chain(tokens)
    ensures tokens != [] ==> Joins(token, tokens[0])
  {
    var all := [token] + tokens;
    assert tokens != [] ==> Joins(all[0], all[1]);
    forall i | 0 <= i < |tokens| - 1 ensures Joins(tokens[i], tokens[i + 1]) {
      assert Joins(all[i + 1], all[i + 2]);
    }
  }

  lemma NoScalarFollows(pieces: seq<Piece>)
    requires Bare(pieces)
    requires TokensOf(pieces) == [] || !TokensOf(pieces)[0].Scalar?
    ensures Render(pieces) == "" || !ScalarChar(Render(pieces)[0])
  {
    if pieces != [] {
      BareRest(pieces);
      if pieces[0].Plain? {
        TokenStart(pieces[0].token);
      }
    }
  }

  // ----- the theorem -----

  /**
   However a JSON document is decorated with white space, comments and trailing commas, the two passes give a text
   whose tokens are exactly the document's, strings included.
   */
  lemma JsoncMeansItsDocument(document: Json, commas: seq<bool>, pieces: seq<Piece>, ending: Ending)
    requires Legal(document) && |commas| == |JsonTokens(document)|
    requires WellFormedPieces(pieces) && WellFormedEnding(ending)
    requires TokensOf(pieces) == WithTrailingCommas(JsonTokens(document), commas)
    ensures var uncommented := StripComments(Render(pieces) + EndingText(ending), Outside);
            uncommented.Some? && Lex(StripTrailingCommas(uncommented.value, Outside)) == Some(JsonTokens(document))
  {
    var clean := Clean(pieces) + CleanEnding(ending);
    FirstPass(pieces, ending);
    CleanKeepsTokens(pieces);
    TokensOfJoin(Clean(pieces), CleanEnding(ending));
    TokensOfCons(Space('\n'), []);
    assert TokensOf(CleanEnding(ending)) == [] by {
      assert [Space('\n')] + [] == [Space('\n')];
    }
    assert TokensOf(clean) == TokensOf(pieces);
    SecondPass(clean);
    DropCommasOnTokens(clean);
    DocumentIsSolid(document);
    DropUndoesTrailing(JsonTokens(document), commas);
    LexBare(DropCommas(clean));
  }
}
