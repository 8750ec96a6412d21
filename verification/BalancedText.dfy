/**
 * Text whose brackets and quotes match, as a tree: where the scanner cuts it, and which braces the
 * search for a body finds in it.
 */
module BalancedText {
  import opened FieldFilter
  import opened TypeScanner
  import opened Wrappers

  /** A character of a string literal, with or without a backslash before it. */
  datatype Letter = Letter(c: char, escaped: bool)

  datatype Piece = Plain(c: char) | Quoted(quote: char, letters: seq<Letter>) | Group(open: char, inner: seq<Piece>)

  const SPECIAL: string := "{}[]()<>\"'"

  predicate IsOpening(c: char) {
    c == '{' || c == '[' || c == '(' || c == '<'
  }

  function Closer(c: char): char {
    if c == '{' then '}' else if c == '[' then ']' else if c == '(' then ')' else '>'
  }

  predicate Matched(p: Piece) {
    match p
    case Plain(c) => c !in SPECIAL
    case Quoted(quote, letters) =>
      && (quote == '"' || quote == '\'')
      && forall i | 0 <= i < |letters| :: letters[i].escaped || (letters[i].c != quote && letters[i].c != '\\')
    case Group(open, inner) => IsOpening(open) && AllMatched(inner)
  }

  predicate AllMatched(pieces: seq<Piece>) {
    pieces != [] ==> Matched(pieces[0]) && AllMatched(pieces[1..])
  }

  function ShowLetters(letters: seq<Letter>): string {
    if letters == [] then ""
    else (if letters[0].escaped then "\\" else "") + [letters[0].c] + ShowLetters(letters[1..])
  }

  function Show(p: Piece): string {
    match p
    case Plain(c) => [c]
    case Quoted(quote, letters) => [quote] + (ShowLetters(letters) + [quote])
    case Group(open, inner) => [open] + (ShowAll(inner) + [Closer(open)])
  }

  function ShowAll(pieces: seq<Piece>): string {
    if pieces == [] then "" else Show(pieces[0]) + ShowAll(pieces[1..])
  }

  predicate NotQuoting(s: Scan) {
    s.stringDelim.None? && !s.escape
  }

  /** One bracket further in. */
  function Deeper(s: Scan, open: char): Scan {
    if open == '{' then s.(brace := s.brace + 1)
    else if open == '[' then s.(bracket := s.bracket + 1)
    else if open == '(' then s.(paren := s.paren + 1)
    else s.(angle := s.angle + 1)
  }

  // ---------------------------------------------------------------------------------------
  // Behind a piece the scanner is where it was
  // ---------------------------------------------------------------------------------------

  lemma RunOne(s: Scan, c: char, rest: string)
    ensures Run(s, [c] + rest) == Run(Observe(s, c), rest)
    ensures Run(s, [c]) == Observe(s, c)
  {
    assert ([c] + rest)[1..] == rest && [c][1..] == "";
  }

  lemma {:induction false} RunLetters(s: Scan, letters: seq<Letter>)
    requires s.stringDelim.Some? && !s.escape && Matched(Quoted(s.stringDelim.value, letters))
    ensures Run(s, ShowLetters(letters)) == s
  {
    if letters != [] {
      RunLetters(s, letters[1..]);
      var rest := ShowLetters(letters[1..]);
      var c := letters[0].c;
      if letters[0].escaped {
        assert ShowLetters(letters) == ['\\'] + ([c] + rest);
        RunOne(s, '\\', [c] + rest);
        RunOne(s.(escape := true), c, rest);
      } else {
        assert ShowLetters(letters) == [c] + rest;
        RunOne(s, c, rest);
      }
    }
  }

  lemma {:induction false} RunPiece(s: Scan, p: Piece)
    requires NotQuoting(s) && Matched(p)
    ensures Run(s, Show(p)) == s
    decreases p
  {
    match p
    case Plain(c) => RunPlain(s, c);
    case Quoted(quote, letters) =>
      var quoting := s.(stringDelim := Some(quote));
      RunOne(s, quote, ShowLetters(letters) + [quote]);
      RunLetters(quoting, letters);
      RunSplit(quoting, ShowLetters(letters), [quote]);
      RunOne(quoting, quote, "");
    case Group(open, inner) =>
      RunOne(s, open, ShowAll(inner) + [Closer(open)]);
      RunPieces(Deeper(s, open), inner);
      RunSplit(Deeper(s, open), ShowAll(inner), [Closer(open)]);
      RunOne(Deeper(s, open), Closer(open), "");
  }

  lemma RunPlain(s: Scan, c: char)
    requires NotQuoting(s) && Matched(Plain(c))
    ensures Run(s, [c]) == s
  {
    RunOne(s, c, "");
    NotSpecial(c);
  }

  lemma NotSpecial(c: char)
    requires c !in SPECIAL
    ensures c != '"' && c != '\'' && c != '{' && c != '}' && c != '[' && c != ']'
    ensures c != '(' && c != ')' && c != '<' && c != '>'
  {
    assert SPECIAL[0] == '{' && SPECIAL[1] == '}' && SPECIAL[2] == '[' && SPECIAL[3] == ']' && SPECIAL[4] == '(';
    assert SPECIAL[5] == ')' && SPECIAL[6] == '<' && SPECIAL[7] == '>' && SPECIAL[8] == '"' && SPECIAL[9] == '\'';
  }

  /** Behind text whose brackets and quotes match the scanner is in the state it was in before. */
  lemma {:induction false} RunPieces(s: Scan, pieces: seq<Piece>)
    requires NotQuoting(s) && AllMatched(pieces)
    ensures Run(s, ShowAll(pieces)) == s
    decreases pieces
  {
    if pieces != [] {
      RunPiece(s, pieces[0]);
      RunPieces(s, pieces[1..]);
      RunSplit(s, Show(pieces[0]), ShowAll(pieces[1..]));
    }
  }

  // ---------------------------------------------------------------------------------------
  // Where it cuts
  // ---------------------------------------------------------------------------------------

  /** Delimiters are no brackets and no quotes. */
  predicate Ordinary(delimiters: seq<char>) {
    forall d | d in delimiters :: d !in SPECIAL
  }

  predicate IsDelimiter(p: Piece, delimiters: seq<char>) {
    p.Plain? && p.c in delimiters
  }

  lemma CutOne(s: Scan, c: char, rest: string, delimiters: seq<char>)
    requires !Cuts(s, c, delimiters)
    ensures FirstCut(s, [c] + rest, delimiters) == 1 + FirstCut(Observe(s, c), rest, delimiters)
    ensures FirstCut(s, [c], delimiters) == 1
  {
    assert ([c] + rest)[1..] == rest && [c][1..] == "";
  }

  lemma {:induction false} LettersNoCut(s: Scan, letters: seq<Letter>, delimiters: seq<char>)
    requires s.stringDelim.Some? && !s.escape && Matched(Quoted(s.stringDelim.value, letters))
    ensures NoCutIn(s, ShowLetters(letters), delimiters)
  {
    if letters != [] {
      LettersNoCut(s, letters[1..], delimiters);
      var rest := ShowLetters(letters[1..]);
      var c := letters[0].c;
      if letters[0].escaped {
        assert ShowLetters(letters) == ['\\'] + ([c] + rest);
        CutOne(s, '\\', [c] + rest, delimiters);
        CutOne(s.(escape := true), c, rest, delimiters);
      } else {
        assert ShowLetters(letters) == [c] + rest;
        CutOne(s, c, rest, delimiters);
      }
    }
  }

  /** Brackets and quotes protect what is in them: only a delimiter at top level is a cut. */
  lemma {:induction false} PieceNoCut(s: Scan, p: Piece, delimiters: seq<char>)
    requires NotQuoting(s) && Matched(p) && Ordinary(delimiters)
    requires TopLevel(s) ==> !IsDelimiter(p, delimiters)
    ensures NoCutIn(s, Show(p), delimiters)
    decreases p
  {
    match p
    case Plain(c) => CutOne(s, c, "", delimiters);
    case Quoted(quote, letters) =>
      var quoting := s.(stringDelim := Some(quote));
      NoSpecialCut(s, quote, delimiters);
      CutOne(s, quote, ShowLetters(letters) + [quote], delimiters);
      LettersNoCut(quoting, letters, delimiters);
      RunLetters(quoting, letters);
      FirstCutSkips(quoting, ShowLetters(letters), [quote], delimiters);
      CutOne(quoting, quote, "", delimiters);
    case Group(open, inner) =>
      var deeper := Deeper(s, open);
      NoSpecialCut(s, open, delimiters);
      CutOne(s, open, ShowAll(inner) + [Closer(open)], delimiters);
      DeepNoCut(deeper, inner, delimiters);
      RunPieces(deeper, inner);
      FirstCutSkips(deeper, ShowAll(inner), [Closer(open)], delimiters);
      CutOne(deeper, Closer(open), "", delimiters);
  }

  lemma NoSpecialCut(s: Scan, c: char, delimiters: seq<char>)
    requires Ordinary(delimiters) && (IsOpening(c) || c == '"' || c == '\'')
    ensures !Cuts(s, c, delimiters)
  {
    if c in delimiters {
      NotSpecial(c);
      assert false;
    }
  }

  lemma {:induction false} DeepNoCut(s: Scan, pieces: seq<Piece>, delimiters: seq<char>)
    requires NotQuoting(s) && !TopLevel(s) && AllMatched(pieces) && Ordinary(delimiters)
    ensures NoCutIn(s, ShowAll(pieces), delimiters)
    decreases pieces
  {
    if pieces != [] {
      PieceNoCut(s, pieces[0], delimiters);
      RunPiece(s, pieces[0]);
      DeepNoCut(s, pieces[1..], delimiters);
      FirstCutSkips(s, Show(pieces[0]), ShowAll(pieces[1..]), delimiters);
    }
  }

  /** The pieces in front of the first delimiter at top level. */
  function Lead(pieces: seq<Piece>, delimiters: seq<char>): (n: nat)
    ensures n <= |pieces|
  {
    if pieces == [] || IsDelimiter(pieces[0], delimiters) then 0 else 1 + Lead(pieces[1..], delimiters)
  }

  lemma {:induction false} CutAtDelimiter(pieces: seq<Piece>, delimiters: seq<char>)
    requires AllMatched(pieces) && Ordinary(delimiters)
    ensures FirstCut(START, ShowAll(pieces), delimiters) == |ShowAll(pieces[..Lead(pieces, delimiters)])|
  {
    if pieces != [] {
      var first, rest := Show(pieces[0]), ShowAll(pieces[1..]);
      if IsDelimiter(pieces[0], delimiters) {
        assert ShowAll(pieces)[0] == pieces[0].c;
      } else {
        var n := Lead(pieces, delimiters);
        PieceNoCut(START, pieces[0], delimiters);
        RunPiece(START, pieces[0]);
        FirstCutSkips(START, first, rest, delimiters);
        CutAtDelimiter(pieces[1..], delimiters);
        assert pieces[..n][1..] == pieces[1..][..n - 1];
      }
    }
  }

  /** The text between the delimiters at top level, trimmed; nothing for what is white space only. */
  function Parts(pieces: seq<Piece>, delimiters: seq<char>): seq<string>
    decreases |pieces|
  {
    var n := Lead(pieces, delimiters);
    Keep(ShowAll(pieces[..n])) + if n == |pieces| then [] else Parts(pieces[n + 1..], delimiters)
  }

  lemma {:induction false} ShowConcat(xs: seq<Piece>, ys: seq<Piece>)
    ensures ShowAll(xs + ys) == ShowAll(xs) + ShowAll(ys)
    ensures AllMatched(xs + ys) <==> AllMatched(xs) && AllMatched(ys)
  {
    if xs == [] {
      assert xs + ys == ys;
    } else {
      assert (xs + ys)[1..] == xs[1..] + ys;
      ShowConcat(xs[1..], ys);
    }
  }

  lemma {:induction false} LeadIsDelimiter(pieces: seq<Piece>, delimiters: seq<char>)
    ensures var n := Lead(pieces, delimiters); n < |pieces| ==> IsDelimiter(pieces[n], delimiters)
  {
    if pieces != [] && !IsDelimiter(pieces[0], delimiters) {
      LeadIsDelimiter(pieces[1..], delimiters);
    }
  }

  lemma CutHere(left: string, d: char, right: string, delimiters: seq<char>)
    requires FirstCut(START, left + ([d] + right), delimiters) == |left|
    ensures Split(left + ([d] + right), delimiters) == Keep(left) + Split(right, delimiters)
  {
    var text := left + ([d] + right);
    assert text[..|left|] == left && text[|left| + 1..] == right;
  }

  lemma CutNowhere(text: string, delimiters: seq<char>)
    requires FirstCut(START, text, delimiters) == |text|
    ensures Split(text, delimiters) == Keep(text)
  {
    assert text[..|text|] == text;
  }

  /** Splitting such a text gives exactly what stands between the delimiters at top level. */
  lemma {:induction false} SplitMatched(pieces: seq<Piece>, delimiters: seq<char>)
    requires AllMatched(pieces) && Ordinary(delimiters)
    ensures Split(ShowAll(pieces), delimiters) == Parts(pieces, delimiters)
    decreases |pieces|
  {
    var n := Lead(pieces, delimiters);
    CutAtDelimiter(pieces, delimiters);
    LeadIsDelimiter(pieces, delimiters);
    if n == |pieces| {
      assert pieces[..n] == pieces;
      CutNowhere(ShowAll(pieces), delimiters);
    } else {
      assert pieces == pieces[..n] + pieces[n..] && pieces[n..][1..] == pieces[n + 1..];
      ShowConcat(pieces[..n], pieces[n..]);
      CutHere(ShowAll(pieces[..n]), pieces[n].c, ShowAll(pieces[n + 1..]), delimiters);
      SplitMatched(pieces[n + 1..], delimiters);
    }
  }

  // ---------------------------------------------------------------------------------------
  // Which braces are found
  // ---------------------------------------------------------------------------------------

  /** On the way through the text no body is opened or closed. */
  predicate NoBody(s: Scan, text: string)
    decreases |text|
  {
    text != "" ==> !Opens(s, text[0]) && !Closes(s, text[0]) && NoBody(Observe(s, text[0]), text[1..])
  }

  lemma {:induction false} NoBodyConcat(s: Scan, u: string, v: string)
    ensures NoBody(s, u + v) <==> NoBody(s, u) && NoBody(Run(s, u), v)
    decreases |u|
  {
    if u == "" {
      assert u + v == v;
    } else {
      assert (u + v)[1..] == u[1..] + v;
      NoBodyConcat(Observe(s, u[0]), u[1..], v);
    }
  }

  lemma {:induction false} SpanSkips(s: Scan, text: string, rest: string, at: nat)
    requires NoBody(s, text)
    ensures Span(s, None, text + rest, at) == Span(Run(s, text), None, rest, at + |text|)
    decreases |text|
  {
    if text == "" {
      assert text + rest == rest;
    } else {
      assert (text + rest)[1..] == text[1..] + rest;
      SpanSkips(Observe(s, text[0]), text[1..], rest, at + 1);
    }
  }

  lemma {:induction false} LettersNoBody(s: Scan, letters: seq<Letter>)
    requires s.stringDelim.Some? && !s.escape && Matched(Quoted(s.stringDelim.value, letters))
    ensures NoBody(s, ShowLetters(letters))
  {
    if letters != [] {
      var rest := ShowLetters(letters[1..]);
      var c := letters[0].c;
      LettersNoBody(s, letters[1..]);
      if letters[0].escaped {
        assert ShowLetters(letters)[1..] == [c] + rest && ShowLetters(letters)[1..][1..] == rest;
      } else {
        assert ShowLetters(letters)[1..] == rest;
      }
    }
  }

  lemma NoBodyOne(s: Scan, c: char, rest: string)
    ensures NoBody(s, [c] + rest) <==> !Opens(s, c) && !Closes(s, c) && NoBody(Observe(s, c), rest)
  {
    assert ([c] + rest)[1..] == rest;
  }

  /** Nothing but a group in braces at top level is a body. */
  lemma {:induction false} PieceNoBody(s: Scan, p: Piece)
    requires NotQuoting(s) && Matched(p) && (TopLevel(s) ==> !(p.Group? && p.open == '{'))
    ensures NoBody(s, Show(p))
    decreases p
  {
    match p
    case Plain(c) =>
      NotSpecial(c);
      NoBodyOne(s, c, "");
    case Quoted(quote, letters) =>
      var quoting := s.(stringDelim := Some(quote));
      NoBodyOne(s, quote, ShowLetters(letters) + [quote]);
      LettersNoBody(quoting, letters);
      RunLetters(quoting, letters);
      NoBodyConcat(quoting, ShowLetters(letters), [quote]);
      NoBodyOne(quoting, quote, "");
    case Group(open, inner) =>
      var deeper := Deeper(s, open);
      NoBodyOne(s, open, ShowAll(inner) + [Closer(open)]);
      DeepNoBody(deeper, inner);
      RunPieces(deeper, inner);
      NoBodyConcat(deeper, ShowAll(inner), [Closer(open)]);
      NoBodyOne(deeper, Closer(open), "");
  }

  lemma {:induction false} DeepNoBody(s: Scan, pieces: seq<Piece>)
    requires NotQuoting(s) && !TopLevel(s) && AllMatched(pieces)
    ensures NoBody(s, ShowAll(pieces))
    decreases pieces
  {
    if pieces != [] {
      PieceNoBody(s, pieces[0]);
      RunPiece(s, pieces[0]);
      DeepNoBody(s, pieces[1..]);
      NoBodyConcat(s, Show(pieces[0]), ShowAll(pieces[1..]));
    }
  }

  predicate NoBraces(pieces: seq<Piece>) {
    forall i | 0 <= i < |pieces| :: !(pieces[i].Group? && pieces[i].open == '{')
  }

  lemma {:induction false} LeadNoBody(pieces: seq<Piece>)
    requires AllMatched(pieces) && NoBraces(pieces)
    ensures NoBody(START, ShowAll(pieces))
  {
    if pieces != [] {
      PieceNoBody(START, pieces[0]);
      RunPiece(START, pieces[0]);
      LeadNoBody(pieces[1..]);
      NoBodyConcat(START, Show(pieces[0]), ShowAll(pieces[1..]));
    }
  }

  lemma {:induction false} NoBodyEnclosed(s: Scan, text: string)
    requires NoBody(s, text)
    ensures Enclosed(s, text) <==> Closes(Run(s, text), '}')
    decreases |text|
  {
    if text != "" {
      NoBodyEnclosed(Observe(s, text[0]), text[1..]);
    }
  }

  /**
   * Of text whose brackets and quotes match the search finds the first group in braces at top
   * level, whatever comes behind it.
   */
  lemma BodyFound(lead: seq<Piece>, inner: seq<Piece>, rest: string, at: nat)
    requires AllMatched(lead) && NoBraces(lead) && AllMatched(inner)
    ensures Span(START, None, ShowAll(lead) + (['{'] + (ShowAll(inner) + (['}'] + rest))), at)
         == Some((at + |ShowAll(lead)|, at + |ShowAll(lead)| + 1 + |ShowAll(inner)|))
  {
    var body, open := ShowAll(inner), at + |ShowAll(lead)|;
    LeadNoBody(lead);
    RunPieces(START, lead);
    SpanSkips(START, ShowAll(lead), ['{'] + (body + (['}'] + rest)), at);
    SpanStep(START, None, '{', body + (['}'] + rest), open);
    DeepNoBody(INSIDE, inner);
    RunPieces(INSIDE, inner);
    NoBodyEnclosed(INSIDE, body);
    SpanOfBody(INSIDE, open, body, ['}'] + rest, open + 1);
  }

  /** Fields are divided by commas and semicolons and arms by bars, and are joined again with these. */
  lemma DividersAre(c: char, x: string, y: string)
    ensures IsDelimiter(Plain(c), FIELD_DELIMITERS) <==> c == ',' || c == ';'
    ensures IsDelimiter(Plain(c), ARM_DELIMITERS) <==> c == '|'
    ensures Join([x, y], FIELD_SEPARATOR) == x + ", " + y && Join([x, y], ARM_SEPARATOR) == x + " | " + y
    ensures Ordinary(FIELD_DELIMITERS) && Ordinary(ARM_DELIMITERS)
  {
    assert [x, y][1..] == [y];
    assert FIELD_DELIMITERS[0] == ',' && FIELD_DELIMITERS[1] == ';' && ARM_DELIMITERS[0] == '|';
  }
}
