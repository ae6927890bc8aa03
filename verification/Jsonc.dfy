/** The two text passes that turn JSON with comments and trailing commas into JSON. */
module Jsonc {
  import opened Common

  /** Where a scanner stands: outside strings, inside one, or right after a backslash inside one. */
  datatype Mode = Outside | InString | Escaped

  /** The mode after a character that is copied. */
  function After(mode: Mode, c: char): Mode {
    match mode
    case Escaped => InString
    case InString => if c == '\\' then Escaped else if c == '"' then Outside else InString
    case Outside => if c == '"' then InString else Outside
  }

  function Prepend(head: string, tail: Option<string>): Option<string> {
    if tail.None? then None else Some(head + tail.value)
  }

  lemma PrependTwice(left: string, right: string, tail: Option<string>)
    ensures Prepend(left, Prepend(right, tail)) == Prepend(left + right, tail)
  {
    if tail.Some? {
      assert left + (right + tail.value) == left + right + tail.value;
    }
  }

  lemma PrependNothing(tail: Option<string>)
    ensures Prepend("", tail) == tail
  {
    if tail.Some? {
      assert "" + tail.value == tail.value;
    }
  }

  // ----- comments -----

  predicate OpensWith(text: string, second: char) {
    |text| >= 2 && text[0] == '/' && text[1] == second
  }

  function LineEnd(text: string): (k: nat)
    ensures k <= |text|
    ensures forall i | 0 <= i < k :: text[i] != '\n'
    ensures k < |text| ==> text[k] == '\n'
  {
    if text == "" || text[0] == '\n' then 0 else LineEnd(text[1..]) + 1
  }

  predicate ClosesAt(text: string, k: nat) {
    k + 1 < |text| && text[k] == '*' && text[k + 1] == '/'
  }

  /** Where the first comment closer stands. */
  function BlockEnd(text: string): (k: Option<nat>)
    ensures k.Some? ==> ClosesAt(text, k.value) && forall i: nat | i < k.value :: !ClosesAt(text, i)
    ensures k.None? ==> forall i: nat :: !ClosesAt(text, i)
  {
    if |text| < 2 then None
    else if ClosesAt(text, 0) then Some(0)
    else
      var rest := BlockEnd(text[1..]);
      assert forall i: nat | i > 0 :: ClosesAt(text, i) <==> ClosesAt(text[1..], i - 1);
      if rest.None? then None else Some(rest.value + 1)
  }

  /** A block comment leaves its shape behind: a newline for a newline, a space for anything else. */
  function Blank(body: string): string {
    if body == "" then "" else [if body[0] == '\n' then '\n' else ' '] + Blank(body[1..])
  }

  /** The text without its comments; nothing if a block comment is never closed. */
  function StripComments(text: string, mode: Mode): Option<string>
    decreases |text|
  {
    if text == "" then Some("")
    else if mode == Outside && OpensWith(text, '/') then
      var end := LineEnd(text);
      Prepend("\n", StripComments(if end < |text| then text[end + 1..] else "", Outside))
    else if mode == Outside && OpensWith(text, '*') then
      var end := BlockEnd(text[2..]);
      if end.None? then None
      else Prepend(Blank(text[2..][..end.value]), StripComments(text[2..][end.value + 2..], Outside))
    else Prepend([text[0]], StripComments(text[1..], After(mode, text[0])))
  }

  /** No comment opens outside a string. */
  predicate FreeOfComments(text: string, mode: Mode)
    decreases |text|
  {
    text == "" ||
    (&& !(mode == Outside && (OpensWith(text, '/') || OpensWith(text, '*')))
     && FreeOfComments(text[1..], After(mode, text[0])))
  }

  lemma {:induction false} BlankIsFree(body: string, rest: string)
    requires FreeOfComments(rest, Outside)
    ensures FreeOfComments(Blank(body) + rest, Outside)
  {
    if body == "" {
      assert Blank(body) + rest == rest;
    } else {
      BlankIsFree(body[1..], rest);
      assert (Blank(body) + rest)[1..] == Blank(body[1..]) + rest;
    }
  }

  /** Stripping leaves no comment opener outside strings. */
  lemma {:induction false} StrippedIsFree(text: string, mode: Mode)
    requires StripComments(text, mode).Some?
    ensures FreeOfComments(StripComments(text, mode).value, mode)
    decreases |text|, 1
  {
    hide FreeOfComments, StripComments;
    if text == "" {
      NothingIsFree(mode);
    } else if mode == Outside && OpensWith(text, '/') {
      LineCommentIsFree(text);
    } else if mode == Outside && OpensWith(text, '*') {
      BlockCommentIsFree(text);
    } else {
      CopiedIsFree(text, mode);
    }
  }

  lemma NothingIsFree(mode: Mode)
    ensures StripComments("", mode) == Some("") && FreeOfComments("", mode)
  {
  }

  lemma {:induction false} LineCommentIsFree(text: string)
    requires OpensWith(text, '/') && StripComments(text, Outside).Some?
    ensures FreeOfComments(StripComments(text, Outside).value, Outside)
    decreases |text|, 0
  {
    var end := LineEnd(text);
    var rest := if end < |text| then text[end + 1..] else "";
    StrippedIsFree(rest, Outside);
    assert ("\n" + StripComments(rest, Outside).value)[1..] == StripComments(rest, Outside).value;
  }

  lemma {:induction false} BlockCommentIsFree(text: string)
    requires OpensWith(text, '*') && StripComments(text, Outside).Some?
    ensures FreeOfComments(StripComments(text, Outside).value, Outside)
    decreases |text|, 0
  {
    hide FreeOfComments;
    var end := BlockEnd(text[2..]).value;
    StrippedIsFree(text[2..][end + 2..], Outside);
    BlankIsFree(text[2..][..end], StripComments(text[2..][end + 2..], Outside).value);
  }

  lemma {:induction false} CopiedIsFree(text: string, mode: Mode)
    requires text != "" && StripComments(text, mode).Some?
    requires !(mode == Outside && (OpensWith(text, '/') || OpensWith(text, '*')))
    ensures FreeOfComments(StripComments(text, mode).value, mode)
    decreases |text|, 0
  {
    var mode' := After(mode, text[0]);
    StrippedIsFree(text[1..], mode');
    var rest := StripComments(text[1..], mode').value;
    assert ([text[0]] + rest)[1..] == rest;
    if mode == Outside && text[0] == '/' && |text| > 1 {
      assert rest[0] == text[1];
    }
  }

  /** A text without comments is left alone. */
  lemma {:induction false} FreeIsFixed(text: string, mode: Mode)
    requires FreeOfComments(text, mode)
    ensures StripComments(text, mode) == Some(text)
    decreases |text|
  {
    if text != "" {
      FreeIsFixed(text[1..], After(mode, text[0]));
      assert [text[0]] + text[1..] == text;
    }
  }

  lemma StripCommentsIdempotent(text: string)
    requires StripComments(text, Outside).Some?
    ensures StripComments(StripComments(text, Outside).value, Outside) == StripComments(text, Outside)
  {
    StrippedIsFree(text, Outside);
    FreeIsFixed(StripComments(text, Outside).value, Outside);
  }

  // ----- trailing commas -----

  /** The characters that the white space class of a regular expression matches. */
  predicate RegexSpace(c: char) {
    || '\U{9}' <= c <= '\U{D}' || c == ' ' || c == '\U{A0}' || c == '\U{1680}' || '\U{2000}' <= c <= '\U{200A}'
    || c == '\U{2028}' || c == '\U{2029}' || c == '\U{202F}' || c == '\U{205F}' || c == '\U{3000}' || c == '\U{FEFF}'
  }

  /** White space and line terminators of ECMAScript (ECMA-262, sections 12.2 and 12.3). */
  lemma SpaceCharacters(c: char)
    ensures RegexSpace(c) <==>
              c in "\t\n\U{B}\U{C}\r \U{A0}\U{1680}\U{2000}\U{2001}\U{2002}\U{2003}\U{2004}\U{2005}\U{2006}\U{2007}" ||
              c in "\U{2008}\U{2009}\U{200A}\U{2028}\U{2029}\U{202F}\U{205F}\U{3000}\U{FEFF}"
  {
    if RegexSpace(c) && c as int < 0x2008 {
      assert c as int in {9, 10, 11, 12, 13, 32, 0xA0, 0x1680, 0x2000, 0x2001, 0x2002, 0x2003, 0x2004, 0x2005, 0x2006,
                          0x2007};
    }
  }

  function SkipSpace(text: string): (rest: string)
    ensures |rest| <= |text|
  {
    if text != "" && RegexSpace(text[0]) then SkipSpace(text[1..]) else text
  }

  predicate Closer(c: char) {
    c == '}' || c == ']'
  }

  predicate ClosesNext(text: string) {
    SkipSpace(text) != "" && Closer(SkipSpace(text)[0])
  }

  function StripTrailingCommas(text: string, mode: Mode): string
    decreases |text|
  {
    if text == "" then ""
    else if mode == Outside && text[0] == ',' && ClosesNext(text[1..]) then StripTrailingCommas(text[1..], Outside)
    else [text[0]] + StripTrailingCommas(text[1..], After(mode, text[0]))
  }

  /** Only commas are dropped, and only outside strings: the other characters stay, in order. */
  function WithoutCommas(text: string, mode: Mode): string
    decreases |text|
  {
    if text == "" then ""
    else if mode == Outside && text[0] == ',' then WithoutCommas(text[1..], Outside)
    else [text[0]] + WithoutCommas(text[1..], After(mode, text[0]))
  }

  lemma {:induction false} OnlyCommasAreDropped(text: string, mode: Mode)
    ensures WithoutCommas(StripTrailingCommas(text, mode), mode) == WithoutCommas(text, mode)
    decreases |text|
  {
    if text != "" {
      OnlyCommasAreDropped(text[1..], After(mode, text[0]));
      if !(mode == Outside && text[0] == ',' && ClosesNext(text[1..])) {
        var rest := StripTrailingCommas(text[1..], After(mode, text[0]));
        assert ([text[0]] + rest)[1..] == rest;
      }
    }
  }

  /** The second pass is not idempotent: of two trailing commas it drops one each time. */
  lemma TrailingCommasNotIdempotent()
    ensures StripTrailingCommas("[1,,]", Outside) == "[1,]"
    ensures StripTrailingCommas("[1,]", Outside) == "[1]"
  {
    var t0, t1, t2, t3, t4 := "[1,,]", "1,,]", ",,]", ",]", "]";
    assert t0[1..] == t1 && t1[1..] == t2 && t2[1..] == t3 && t3[1..] == t4 && t4[1..] == "";
    assert StripTrailingCommas(t4, Outside) == "]";
    assert StripTrailingCommas(t3, Outside) == "]";
    assert !RegexSpace(',') && SkipSpace(t3) == t3;
    assert StripTrailingCommas(t2, Outside) == ",]";
    assert StripTrailingCommas(t1, Outside) == "1,]";
    var u0, u1 := "[1,]", "1,]";
    assert u0[1..] == u1 && u1[1..] == t3;
    assert StripTrailingCommas(u1, Outside) == "1]";
  }

  /** A comma, then only white space, then a comma that is dropped. */
  predicate DoubleTrailing(text: string, mode: Mode)
    decreases |text|
  {
    text != "" &&
    (|| (mode == Outside && text[0] == ',' && CommaThenCloser(text[1..]))
     || DoubleTrailing(text[1..], After(mode, text[0])))
  }

  predicate CommaThenCloser(text: string) {
    SkipSpace(text) != "" && SkipSpace(text)[0] == ',' && ClosesNext(SkipSpace(text)[1..])
  }

  lemma {:induction false} StrippedIsShorter(text: string, mode: Mode)
    ensures |StripTrailingCommas(text, mode)| <= |text|
    decreases |text|
  {
    if text != "" {
      StrippedIsShorter(text[1..], After(mode, text[0]));
    }
  }

  /** What a comma has after it once the second pass is done with the rest. */
  lemma {:induction false} ClosesNextAfterPass(rest: string)
    ensures ClosesNext(StripTrailingCommas(rest, Outside)) <==> ClosesNext(rest) || CommaThenCloser(rest)
  {
    if rest != "" {
      var out := StripTrailingCommas(rest[1..], After(Outside, rest[0]));
      assert ([rest[0]] + out)[1..] == out;
      ClosesNextAfterPass(rest[1..]);
    }
  }

  /** The second pass is idempotent exactly on texts without doubled trailing commas. */
  lemma {:induction false} TrailingCommasIdempotentIff(text: string, mode: Mode)
    ensures var once := StripTrailingCommas(text, mode);
            StripTrailingCommas(once, mode) == once <==> !DoubleTrailing(text, mode)
    decreases |text|
  {
    if text != "" {
      var mode' := After(mode, text[0]);
      var rest := StripTrailingCommas(text[1..], mode');
      TrailingCommasIdempotentIff(text[1..], mode');
      assert ([text[0]] + rest)[1..] == rest;
      if mode == Outside && text[0] == ',' {
        ClosesNextAfterPass(text[1..]);
        StrippedIsShorter(rest, Outside);
      }
    }
  }

  // ----- the loops -----

  /** The scanning flags of the loops as one mode. */
  function ModeOf(inString: bool, escaped: bool): Mode {
    if !inString then Outside else if escaped then Escaped else InString
  }

  /** The flags after a character inside a string. */
  method AdvanceInString(current: char, escaped: bool) returns (inString': bool, escaped': bool)
    ensures ModeOf(inString', escaped') == After(ModeOf(true, escaped), current)
    ensures escaped' ==> inString'
  {
    inString', escaped' := true, escaped;
    if escaped {
      escaped' := false;
    } else if current == '\\' {
      escaped' := true;
    } else if current == '"' {
      inString' := false;
    }
  }

  lemma SuffixStep(text: string, index: nat)
    requires index < |text|
    ensures text[index..][0] == text[index] && text[index..][1..] == text[index + 1..]
    ensures text[index..] == [text[index]] + text[index + 1..]
  {
  }

  /** Skips a line comment up to its newline. */
  method SkipLine(text: string, start: nat) returns (index: nat)
    requires start <= |text|
    ensures index == start + LineEnd(text[start..])
  {
    index := start;
    while index < |text| && text[index] != '\n'
      invariant start <= index <= |text|
      invariant start + LineEnd(text[start..]) == index + LineEnd(text[index..])
    {
      SuffixStep(text, index);
      index := index + 1;
    }
  }

  /** Blanks a block comment out, up to its closer or the end of the text. */
  method BlankBlock(text: string, start: nat) returns (blanks: string, index: nat)
    requires start <= |text|
    ensures BlockEnd(text[start..]).None? <==> index == |text|
    ensures BlockEnd(text[start..]).Some? ==>
              index == start + BlockEnd(text[start..]).value && blanks == Blank(text[start..][..index - start])
    ensures index <= |text|
  {
    blanks, index := "", start;
    while index < |text| && !(text[index] == '*' && index + 1 < |text| && text[index + 1] == '/')
      invariant start <= index <= |text|
      invariant forall i: nat | i < index - start :: !ClosesAt(text[start..], i)
      invariant blanks == Blank(text[start..index])
    {
      BlankSnoc(text[start..index], text[index]);
      assert text[start..index] + [text[index]] == text[start..index + 1];
      blanks := blanks + [if text[index] == '\n' then '\n' else ' '];
      index := index + 1;
    }
    assert index < |text| ==> ClosesAt(text[start..], index - start);
    assert text[start..][..index - start] == text[start..index];
  }

  lemma {:induction false} BlankSnoc(body: string, c: char)
    ensures Blank(body + [c]) == Blank(body) + [if c == '\n' then '\n' else ' ']
  {
    if body != "" {
      BlankSnoc(body[1..], c);
      assert (body + [c])[1..] == body[1..] + [c];
    } else {
      assert (body + [c])[1..] == "";
    }
  }

  /** Steps over a line comment, and over the newline that ends it. */
  method PassLineComment(text: string, index: nat) returns (index': nat)
    requires index < |text| && OpensWith(text[index..], '/')
    ensures index < index' <= |text|
    ensures StripComments(text[index..], Outside) == Prepend("\n", StripComments(text[index'..], Outside))
  {
    var end := SkipLine(text, index);
    assert end < |text| ==> text[index..][LineEnd(text[index..]) + 1..] == text[end + 1..];
    assert end == |text| ==> text[end..] == "";
    index' := if end < |text| then end + 1 else end;
  }

  lemma BlockStep(text: string)
    requires OpensWith(text, '*')
    ensures var end := BlockEnd(text[2..]);
            StripComments(text, Outside) ==
            if end.None? then None
            else Prepend(Blank(text[2..][..end.value]), StripComments(text[2..][end.value + 2..], Outside))
  {
  }

  /** Steps over a block comment; there is no way on if it is never closed. */
  method PassBlockComment(text: string, index: nat) returns (blanks: string, index': Option<nat>)
    requires index < |text| && OpensWith(text[index..], '*')
    ensures index'.None? ==> StripComments(text[index..], Outside) == None
    ensures index'.Some? ==>
              && index < index'.value <= |text|
              && StripComments(text[index..], Outside) ==
                 Prepend(blanks, StripComments(text[index'.value..], Outside))
  {
    hide StripComments, BlockEnd, Blank;
    var end;
    blanks, end := BlankBlock(text, index + 2);
    BlockStep(text[index..]);
    if end == |text| {
      return blanks, None;
    }
    return blanks, Some(end + 2);
  }

  /** The result is nothing where the code throws on an unterminated block comment. */
  method StripJsonComments(text: string) returns (stripped: Option<string>)
    ensures stripped == StripComments(text, Outside)
  {
    var output, inString, escaped, index := "", false, false, 0;
    assert text[0..] == text;
    PrependNothing(StripComments(text, Outside));
    while index < |text|
      invariant index <= |text| && (escaped ==> inString)
      invariant Prepend(output, StripComments(text[index..], ModeOf(inString, escaped))) == StripComments(text, Outside)
    {
      var current := text[index];
      var next := if index + 1 < |text| then Some(text[index + 1]) else None;
      if !inString && current == '/' && next == Some('/') {
        var end := PassLineComment(text, index);
        PrependTwice(output, "\n", StripComments(text[end..], Outside));
        output, index := output + "\n", end;
      } else if !inString && current == '/' && next == Some('*') {
        var blanks, end := PassBlockComment(text, index);
        if end.None? {
          return None;
        }
        PrependTwice(output, blanks, StripComments(text[end.value..], Outside));
        output, index := output + blanks, end.value;
      } else {
        PrependTwice(output, [current], StripComments(text[index + 1..], After(ModeOf(inString, escaped), current)));
        output, index := output + [current], index + 1;
        if inString {
          inString, escaped := AdvanceInString(current, escaped);
        } else {
          inString := current == '"';
        }
      }
    }
    assert text[index..] == "" && output + "" == output;
    return Some(output);
  }

  /** The lookahead over white space after a comma. */
  method ClosedNext(text: string, start: nat) returns (closed: bool)
    requires start <= |text|
    ensures closed <==> ClosesNext(text[start..])
  {
    var lookahead := start;
    while lookahead < |text| && RegexSpace(text[lookahead])
      invariant start <= lookahead <= |text|
      invariant SkipSpace(text[lookahead..]) == SkipSpace(text[start..])
    {
      SuffixStep(text, lookahead);
      lookahead := lookahead + 1;
    }
    closed := lookahead < |text| && (text[lookahead] == '}' || text[lookahead] == ']');
  }

  method StripCommas(text: string) returns (output: string)
    ensures output == StripTrailingCommas(text, Outside)
  {
    output := "";
    var inString, escaped := false, false;
    assert text[0..] == text;
    for index := 0 to |text|
      invariant escaped ==> inString
      invariant output + StripTrailingCommas(text[index..], ModeOf(inString, escaped)) ==
                StripTrailingCommas(text, Outside)
    {
      CommaStep(text, index, ModeOf(inString, escaped), output);
      var current := text[index];
      var drop := false;
      if inString {
        inString, escaped := AdvanceInString(current, escaped);
      } else if current == '"' {
        inString := true;
      } else if current == ',' {
        drop := ClosedNext(text, index + 1);
      }
      if !drop {
        output := output + [current];
      }
    }
    assert text[|text|..] == "";
  }

  lemma CommaStep(text: string, index: nat, mode: Mode, output: string)
    requires index < |text|
    ensures var c, rest := text[index], text[index + 1..];
            output + StripTrailingCommas(text[index..], mode) ==
            if mode == Outside && c == ',' && ClosesNext(rest) then output + StripTrailingCommas(rest, Outside)
            else output + [c] + StripTrailingCommas(rest, After(mode, c))
  {
    SuffixStep(text, index);
  }

  /** What is handed to the JSON parser. */
  method StripJsonc(text: string) returns (stripped: Option<string>)
    ensures var uncommented := StripComments(text, Outside);
            stripped == if uncommented.None? then None else Some(StripTrailingCommas(uncommented.value, Outside))
  {
    var uncommented := StripJsonComments(text);
    if uncommented.None? {
      return None;
    }
    var json := StripCommas(uncommented.value);
    return Some(json);
  }
}
