/**
 * The name of the property that a generated field declares: an identifier or a quoted name in
 * front of a colon, behind comments.
 */
module PropertyNames {
  import opened Strings
  import opened TypeScanner
  import opened Wrappers

  // ---------------------------------------------------------------------------------------
  // Comments and literals
  // ---------------------------------------------------------------------------------------

  /** The text behind the comments that it starts with; one that does not end is kept. */
  function BehindComments(text: string): string
    decreases |text|
  {
    if !StartsWith(text, "/*") then text
    else
      FindTextFits(text[2..], "*/");
      match FindText(text[2..], "*/")
      case None => text
      case Some(end) =>
        var rest := text[2..][end + 2..];
        TrimStartSplits(rest);
        BehindComments(TrimStart(rest))
  }

  /** `strip_leading_block_comments`. */
  method StripLeadingBlockComments(input: string) returns (rest: string)
    ensures rest == BehindComments(TrimStart(input))
  {
    rest := TrimStart(input);
    while StartsWith(rest, "/*")
      invariant BehindComments(rest) == BehindComments(TrimStart(input))
      decreases |rest|
    {
      var end := FindText(rest[2..], "*/");
      FindTextFits(rest[2..], "*/");
      if end.None? {
        return;
      }
      TrimStartSplits(rest[2..][end.value + 2..]);
      rest := TrimStart(rest[2..][end.value + 2..]);
    }
  }

  /** A comment, and the text that it holds: it ends where it first can. */
  predicate IsComment(comment: string, inner: string) {
    comment == "/*" + (inner + "*/") && FindText(inner, "*/").None?
  }

  /** The text is a comment, white space, and more. */
  predicate StartsWithComment(text: string, comment: string, inner: string, space: string, more: string) {
    text == comment + (space + more) && IsComment(comment, inner) && AllSpace(space)
  }

  /** Any number of comments, each with white space behind it. */
  ghost predicate AreComments(lead: string)
    decreases |lead|
  {
    lead == "" ||
    exists comment, inner, space, more | StartsWithComment(lead, comment, inner, space, more) ::
      |more| < |lead| && AreComments(more)
  }

  /** Text that does not start with a comment that ends. */
  predicate Bare(text: string) {
    !StartsWith(text, "/*") || FindText(text[2..], "*/").None?
  }

  lemma CommentEnd(inner: string, behind: string)
    requires FindText(inner, "*/").None?
    ensures FindText(inner + ("*/" + behind), "*/") == Some(|inner|)
  {
    var text := inner + ("*/" + behind);
    FindTextFinds(inner, "*/");
    assert text[|inner|..] == "*/" + behind;
    forall j | 0 <= j < |inner| ensures !OccursAt(text, "*/", j) {
      if OccursAt(text, "*/", j) {
        assert text[j] == '*' && text[j + 1] == '/';
        if j + 1 < |inner| {
          assert inner[j..][0] == '*' && inner[j..][1] == '/';
          assert OccursAt(inner, "*/", j);
        }
      }
    }
    FindTextIs(text, "*/", |inner|);
  }

  /** A comment in front is skipped, with the white space behind it. */
  lemma CommentSkipped(comment: string, inner: string, rest: string)
    requires IsComment(comment, inner)
    ensures BehindComments(comment + rest) == BehindComments(TrimStart(rest))
  {
    var text := comment + rest;
    CommentEnd(inner, rest);
    assert text[2..] == inner + ("*/" + rest);
    assert text[2..][|inner| + 2..] == rest;
    assert text == "/*" + text[2..];
  }

  lemma TrimSame(space: string, text: string)
    requires AllSpace(space)
    ensures TrimStart(space + text) == TrimStart(text)
    decreases |space|
  {
    if space == "" {
      assert space + text == text;
    } else {
      assert (space + text)[1..] == space[1..] + text;
      TrimSame(space[1..], text);
    }
  }

  lemma OneSkipped(comment: string, inner: string, space: string, rest: string)
    requires IsComment(comment, inner) && AllSpace(space) && TrimStart(rest) == rest
    ensures BehindComments(comment + (space + rest)) == BehindComments(rest)
  {
    CommentSkipped(comment, inner, space + rest);
    TrimSame(space, rest);
  }

  lemma {:induction false} CommentsSkipped(lead: string, rest: string)
    requires AreComments(lead) && (lead != "" ==> TrimStart(rest) == rest)
    ensures BehindComments(lead + rest) == BehindComments(rest)
    decreases |lead|
  {
    if lead == "" {
      assert lead + rest == rest;
    } else {
      var comment, inner, space, more :| StartsWithComment(lead, comment, inner, space, more)
        && |more| < |lead| && AreComments(more);
      CommentsVisible(more, rest);
      OneSkipped(comment, inner, space, more + rest);
      CommentsSkipped(more, rest);
      Regroup(comment, space, more, rest);
    }
  }

  lemma Regroup(comment: string, space: string, more: string, rest: string)
    ensures comment + (space + more) + rest == comment + (space + (more + rest))
  {
  }

  /** Comments start with a character that is seen. */
  lemma CommentsVisible(lead: string, rest: string)
    requires AreComments(lead) && TrimStart(rest) == rest
    ensures TrimStart(lead + rest) == lead + rest
  {
    if lead == "" {
      assert lead + rest == rest;
    } else {
      assert lead[0] == '/';
    }
  }

  lemma MoreComments(comment: string, inner: string, space: string, more: string)
    requires IsComment(comment, inner) && AllSpace(space) && AreComments(more)
    ensures AreComments(comment + (space + more))
  {
    assert StartsWithComment(comment + (space + more), comment, inner, space, more);
  }

  lemma OccursInPrefix(text: string, end: nat, pattern: string)
    requires end <= |text|
    ensures forall j :: OccursAt(text[..end], pattern, j) ==> OccursAt(text, pattern, j) && j + |pattern| <= end
  {
    forall j | OccursAt(text[..end], pattern, j)
      ensures OccursAt(text, pattern, j) && j + |pattern| <= end
    {
      assert text[j..] == text[..end][j..] + text[end..];
    }
  }

  lemma InnerIsPlain(text: string, end: nat)
    requires FindText(text, "*/") == Some(end)
    ensures end + 2 <= |text| && FindText(text[..end], "*/").None? && text[end..end + 2] == "*/"
  {
    FindTextFits(text, "*/");
    OccursInPrefix(text, end, "*/");
    FindTextFinds(text, "*/");
    FindTextFinds(text[..end], "*/");
  }

  /** A text that is not bare starts with a comment. */
  lemma CommentInFront(text: string) returns (comment: string, inner: string, behind: string)
    requires !Bare(text)
    ensures text == comment + behind && IsComment(comment, inner)
  {
    var tail := text[2..];
    var end := FindText(tail, "*/").value;
    InnerIsPlain(tail, end);
    inner, behind := tail[..end], tail[end + 2..];
    comment := "/*" + (inner + "*/");
    assert tail == inner + "*/" + behind;
    assert text == "/*" + tail;
  }

  /** The result is bare, and in front of it are comments only. */
  lemma {:induction false} CommentsBefore(text: string) returns (lead: string)
    ensures text == lead + BehindComments(text) && AreComments(lead) && Bare(BehindComments(text))
    ensures lead != "" ==> TrimStart(BehindComments(text)) == BehindComments(text)
    decreases |text|
  {
    if Bare(text) {
      lead := "";
    } else {
      var comment, inner, behind := CommentInFront(text);
      var rest := TrimStart(behind);
      TrimStartSplits(behind);
      TrimStartSplits(rest);
      var space := behind[..|behind| - |rest|];
      CommentSkipped(comment, inner, behind);
      var more := CommentsBefore(rest);
      MoreComments(comment, inner, space, more);
      lead := comment + (space + more);
      Regroup(comment, space, more, BehindComments(text));
    }
  }

  ghost predicate IsLead(text: string, lead: string, rest: string) {
    text == lead + rest && AreComments(lead) && (lead != "" ==> TrimStart(rest) == rest)
  }

  /** The result is all that is behind the comments in front: a bare text, and seen from its start. */
  lemma BehindExactly(text: string, rest: string)
    ensures BehindComments(text) == rest <==> Bare(rest) && exists lead :: IsLead(text, lead, rest)
  {
    if BehindComments(text) == rest {
      var lead := CommentsBefore(text);
      assert IsLead(text, lead, rest);
    }
    if Bare(rest) && exists lead :: IsLead(text, lead, rest) {
      var lead :| IsLead(text, lead, rest);
      CommentsSkipped(lead, rest);
    }
  }

  predicate IsQuote(c: char) {
    c == '"' || c == '\''
  }

  function Later(end: Option<nat>, more: nat): Option<nat> {
    match end
    case None => None
    case Some(n) => Some(n + more)
  }

  /** Where the quote is that ends a literal; `escaped` says that the first character does not count. */
  function LiteralEnd(text: string, quote: char, escaped: bool): (end: Option<nat>)
    ensures end.Some? ==> end.value < |text| && text[end.value] == quote
    decreases |text|
  {
    if text == "" then None
    else if escaped then Later(LiteralEnd(text[1..], quote, false), 1)
    else if text[0] == '\\' then Later(LiteralEnd(text[1..], quote, true), 1)
    else if text[0] == quote then Some(0)
    else Later(LiteralEnd(text[1..], quote, false), 1)
  }

  /** The literal that the text starts with, as it is written, and the length that it takes. */
  function StringLiteral(input: string): Option<(string, nat)> {
    if input == "" || !IsQuote(input[0]) then None
    else match LiteralEnd(input[1..], input[0], false)
         case None => None
         case Some(end) => Some((input[1..end + 1], end + 2))
  }

  /** `parse_string_literal`. */
  method ParseStringLiteral(input: string) returns (r: Option<(string, nat)>)
    ensures r == StringLiteral(input)
  {
    if input == "" || !IsQuote(input[0]) {
      return None;
    }
    var quote, escape := input[0], false;
    for index := 1 to |input|
      invariant LiteralEnd(input[1..], quote, false) == Later(LiteralEnd(input[index..], quote, escape), index - 1)
    {
      var ch := input[index];
      assert input[index..][1..] == input[index + 1..];
      if escape {
        escape := false;
        continue;
      }
      if ch == '\\' {
        escape := true;
        continue;
      }
      if ch == quote {
        return Some((input[1..index], index + 1));
      }
    }
    r := None;
  }

  // ---------------------------------------------------------------------------------------
  // The name
  // ---------------------------------------------------------------------------------------

  predicate IsIdentChar(c: char) {
    'a' <= c <= 'z' || 'A' <= c <= 'Z' || '0' <= c <= '9' || c == '_'
  }

  /** By code point: the digits, the capital and small letters of ASCII, and the underscore. */
  lemma IdentChars(c: char)
    ensures IsIdentChar(c) <==>
      48 <= c as int <= 57 || 65 <= c as int <= 90 || 97 <= c as int <= 122 || c as int == 95
    ensures IsQuote(c) <==> c as int == 34 || c as int == 39
  {
  }

  function IdentLength(text: string): (n: nat)
    ensures n <= |text| && (forall i | 0 <= i < n :: IsIdentChar(text[i]))
    ensures n < |text| ==> !IsIdentChar(text[n])
  {
    if text == "" || !IsIdentChar(text[0]) then 0 else 1 + IdentLength(text[1..])
  }

  function BehindMark(text: string): string {
    if StartsWith(text, "?") then TrimStart(text[1..]) else text
  }

  function NameBefore(name: string, rest: string): Option<string> {
    if StartsWith(rest, ":") then Some(name) else None
  }

  /** The name of the property that the field declares, if it declares one. */
  function PropertyName(field: string): Option<string> {
    var text := TrimStart(field);
    match StringLiteral(text)
    case Some((literal, length)) => NameBefore(literal, TrimStart(text[length..]))
    case None =>
      var end := IdentLength(text);
      if end == 0 then None else NameBefore(text[..end], BehindMark(TrimStart(text[end..])))
  }

  /** `parse_property_name`. */
  method ParsePropertyName(input: string) returns (r: Option<string>)
    ensures r == PropertyName(input)
  {
    var trimmed := TrimStart(input);
    if trimmed == "" {
      return None;
    }
    var literal := ParseStringLiteral(trimmed);
    if literal.Some? {
      var rest := TrimStart(trimmed[literal.value.1..]);
      return if StartsWith(rest, ":") then Some(literal.value.0) else None;
    }
    var end := 0;
    while end < |trimmed| && IsIdentChar(trimmed[end])
      invariant end <= |trimmed| && IdentLength(trimmed) == end + IdentLength(trimmed[end..])
    {
      assert trimmed[end..][1..] == trimmed[end + 1..];
      end := end + 1;
    }
    if end == 0 {
      return None;
    }
    var rest := TrimStart(trimmed[end..]);
    if StartsWith(rest, "?") {
      rest := TrimStart(rest[1..]);
    }
    r := if StartsWith(rest, ":") then Some(trimmed[..end]) else None;
  }

  // ---------------------------------------------------------------------------------------
  // Which fields have which name
  // ---------------------------------------------------------------------------------------

  predicate IsIdent(name: string) {
    name != "" && forall i | 0 <= i < |name| :: IsIdentChar(name[i])
  }

  /** The name between quotes, the second of which is the first that is not escaped. */
  predicate IsQuoted(token: string, name: string) {
    && token != "" && IsQuote(token[0]) && token == [token[0]] + name + [token[0]]
    && LiteralEnd(token[1..], token[0], false) == Some(|name|)
  }

  predicate IsMark(gap: string, before: string, behind: string) {
    gap == before + ("?" + behind) && AllSpace(before) && AllSpace(behind)
  }

  /** White space, with one question mark in it if that is allowed. */
  ghost predicate IsGap(gap: string, marked: bool) {
    AllSpace(gap) || (marked && exists before, behind :: IsMark(gap, before, behind))
  }

  /** The field is the name as an identifier or in quotes, a gap, a colon and the rest. */
  ghost predicate IsField(field: string, name: string, lead: string, token: string, gap: string, rest: string) {
    && field == lead + (token + (gap + (":" + rest))) && AllSpace(lead)
    && ((token == name && IsIdent(name) && IsGap(gap, true)) || (IsQuoted(token, name) && IsGap(gap, false)))
  }

  ghost predicate Declares(field: string, name: string) {
    exists lead, token, gap, rest :: IsField(field, name, lead, token, gap, rest)
  }

  lemma {:induction false} LiteralEndOf(text: string, more: string, quote: char, escaped: bool)
    requires LiteralEnd(text, quote, escaped).Some?
    ensures LiteralEnd(text + more, quote, escaped) == LiteralEnd(text, quote, escaped)
    decreases |text|
  {
    assert (text + more)[1..] == text[1..] + more;
    if escaped || text[0] == '\\' {
      LiteralEndOf(text[1..], more, quote, !escaped);
    } else if text[0] != quote {
      LiteralEndOf(text[1..], more, quote, false);
    }
  }

  lemma QuotedFound(token: string, name: string, more: string)
    requires IsQuoted(token, name)
    ensures StringLiteral(token + more) == Some((name, |token|))
  {
    var text := token + more;
    assert text[1..] == token[1..] + more;
    LiteralEndOf(token[1..], more, token[0], false);
    assert text[1..|name| + 1] == name;
  }

  lemma LiteralIsQuoted(text: string)
    requires StringLiteral(text).Some?
    ensures var (name, length) := StringLiteral(text).value; length <= |text| && IsQuoted(text[..length], name)
  {
    var (name, length) := StringLiteral(text).value;
    var token := text[..length];
    assert token[1..] == text[1..][..length - 1];
    LiteralEndIn(text[1..], text[0], false);
    assert token == [token[0]] + name + [token[0]];
  }

  lemma {:induction false} LiteralEndIn(text: string, quote: char, escaped: bool)
    requires LiteralEnd(text, quote, escaped).Some?
    ensures var end := LiteralEnd(text, quote, escaped);
      LiteralEnd(text[..end.value + 1], quote, escaped) == end
    decreases |text|
  {
    var front := text[..LiteralEnd(text, quote, escaped).value + 1];
    if escaped || text[0] == '\\' {
      LiteralEndIn(text[1..], quote, !escaped);
      assert front[1..] == text[1..][..|front| - 1];
    } else if text[0] != quote {
      LiteralEndIn(text[1..], quote, false);
      assert front[1..] == text[1..][..|front| - 1];
    }
  }

  lemma {:induction false} IdentLengthOf(name: string, more: string)
    requires (forall i | 0 <= i < |name| :: IsIdentChar(name[i])) && more != "" && !IsIdentChar(more[0])
    ensures IdentLength(name + more) == |name|
  {
    if name == "" {
      assert name + more == more;
    } else {
      assert (name + more)[1..] == name[1..] + more;
      IdentLengthOf(name[1..], more);
    }
  }

  lemma SpaceSkipped(gap: string, rest: string)
    requires AllSpace(gap)
    ensures TrimStart(gap + (":" + rest)) == ":" + rest
  {
    TrimStartOf(gap, ":" + rest);
  }

  lemma MarkSkipped(gap: string, before: string, behind: string, rest: string)
    requires IsMark(gap, before, behind)
    ensures BehindMark(TrimStart(gap + (":" + rest))) == ":" + rest
  {
    var back := behind + (":" + rest);
    assert gap + (":" + rest) == before + ("?" + back);
    TrimStartOf(before, "?" + back);
    assert ("?" + back)[1..] == back;
    SpaceSkipped(behind, rest);
  }

  lemma GapSkipped(gap: string, rest: string)
    requires IsGap(gap, true)
    ensures BehindMark(TrimStart(gap + (":" + rest))) == ":" + rest
  {
    if AllSpace(gap) {
      SpaceSkipped(gap, rest);
      assert (":" + rest)[0] != "?"[0];
    } else {
      var before, behind :| IsMark(gap, before, behind);
      MarkSkipped(gap, before, behind, rest);
    }
  }

  lemma NameFound(field: string, name: string, lead: string, token: string, gap: string, rest: string)
    requires IsField(field, name, lead, token, gap, rest)
    ensures PropertyName(field) == Some(name)
  {
    var behind := gap + (":" + rest);
    var text := token + behind;
    TrimStartOf(lead, text);
    assert text[|token|..] == behind;
    if IsQuoted(token, name) {
      SpaceSkipped(gap, rest);
      QuotedFound(token, name, behind);
    } else {
      GapSkipped(gap, rest);
      assert !IsIdentChar(behind[0]);
      IdentLengthOf(name, behind);
      assert text[..|name|] == name;
      assert IsIdentChar(text[0]);
    }
  }

  lemma SpaceBefore(text: string) returns (gap: string)
    ensures text == gap + TrimStart(text) && AllSpace(gap)
  {
    TrimStartSplits(text);
    gap := text[..|text| - |TrimStart(text)|];
  }

  lemma MarkIs(text: string, before: string, back: string, behind: string, last: string)
    requires text == before + back && AllSpace(before) && StartsWith(back, "?")
    requires back[1..] == behind + last && AllSpace(behind)
    ensures var gap := before + ("?" + behind); text == gap + last && IsGap(gap, true)
  {
    assert back == ['?'] + back[1..];
    assert IsMark(before + ("?" + behind), before, behind);
  }

  lemma MarkBefore(text: string) returns (gap: string)
    ensures text == gap + BehindMark(TrimStart(text)) && IsGap(gap, true)
  {
    var back := TrimStart(text);
    gap := SpaceBefore(text);
    if StartsWith(back, "?") {
      var before := gap;
      var behind := SpaceBefore(back[1..]);
      MarkIs(text, before, back, behind, TrimStart(back[1..]));
      gap := before + ("?" + behind);
    }
  }

  /** What stands in front of the colon is a gap. */
  lemma GapBefore(text: string, marked: bool) returns (gap: string, rest: string)
    requires StartsWith(if marked then BehindMark(TrimStart(text)) else TrimStart(text), ":")
    ensures text == gap + (":" + rest) && IsGap(gap, marked)
  {
    var colon := if marked then BehindMark(TrimStart(text)) else TrimStart(text);
    if marked {
      gap := MarkBefore(text);
    } else {
      gap := SpaceBefore(text);
    }
    rest := colon[1..];
    assert colon == ":" + rest;
  }

  lemma FieldOfName(field: string, name: string)
    requires PropertyName(field) == Some(name)
    ensures Declares(field, name)
  {
    var text := TrimStart(field);
    TrimStartSplits(field);
    var lead := field[..|field| - |text|];
    var literal := StringLiteral(text);
    if literal.Some? {
      LiteralIsQuoted(text);
    }
    var length := if literal.Some? then literal.value.1 else IdentLength(text);
    var gap, rest := GapBefore(text[length..], literal.None?);
    assert text == text[..length] + text[length..];
    assert IsField(field, name, lead, text[..length], gap, rest);
  }

  /** A field has a name exactly if it declares it, as an identifier or in quotes. */
  lemma NamedExactly(field: string, name: string)
    ensures PropertyName(field) == Some(name) <==> Declares(field, name)
  {
    if PropertyName(field) == Some(name) {
      FieldOfName(field, name);
    }
    if Declares(field, name) {
      var lead, token, gap, rest :| IsField(field, name, lead, token, gap, rest);
      NameFound(field, name, lead, token, gap, rest);
    }
  }

  // ---------------------------------------------------------------------------------------
  // Which fields stay
  // ---------------------------------------------------------------------------------------

  predicate NotIn(name: Option<string>, names: set<string>) {
    name.None? || name.value !in names
  }

  predicate Stays(field: string, names: set<string>) {
    NotIn(PropertyName(BehindComments(TrimStart(field))), names)
  }

  /** The fields whose name is not listed, and those without a name. */
  function Unlisted(names: set<string>): string -> bool {
    field => Stays(field, names)
  }

  ghost predicate DeclaresOne(text: string, names: set<string>) {
    exists name | name in names :: Declares(text, name)
  }

  /** A text has no listed name exactly if it declares none. */
  lemma StaysExactly(text: string, names: set<string>)
    ensures NotIn(PropertyName(text), names) <==> !DeclaresOne(text, names)
  {
    var found := PropertyName(text);
    if found.Some? {
      NamedExactly(text, found.value);
    }
    if DeclaresOne(text, names) {
      var name :| name in names && Declares(text, name);
      NamedExactly(text, name);
    }
  }

  lemma ListedIffDeclared(field: string, names: set<string>)
    ensures Stays(field, names) <==> !DeclaresOne(BehindComments(TrimStart(field)), names)
  {
    StaysExactly(BehindComments(TrimStart(field)), names);
  }

  lemma VisibleStart(text: string)
    requires text != "" && IsIdentChar(text[0])
    ensures TrimStart(text) == text && BehindComments(text) == text
  {
    assert text[0] != "/*"[0];
  }

  /** A field whose name is an identifier, behind any number of comments, stays exactly if it is not listed. */
  lemma PlainField(field: string, lead: string, name: string, rest: string, names: set<string>)
    requires AreComments(lead) && IsIdent(name) && field == lead + (name + (":" + rest))
    ensures Stays(field, names) <==> name !in names
  {
    var text := name + (":" + rest);
    assert text == "" + (name + ("" + (":" + rest)));
    VisibleStart(text);
    CommentsVisible(lead, text);
    CommentsSkipped(lead, text);
    NameFound(text, name, "", name, "", rest);
  }

  lemma NoStar(inner: string)
    requires '*' !in inner
    ensures FindText(inner, "*/").None?
  {
    FindTextFinds(inner, "*/");
    assert forall i :: OccursAt(inner, "*/", i) ==> i < |inner| && inner[i] == '*';
  }

  /** For example the field `b` behind a comment. */
  lemma CommentedField(field: string)
    requires field == "/* x */ b: s"
    ensures !Stays(field, {"b"})
  {
    var lead := "/* x */ ";
    NoStar(" x ");
    assert IsComment("/* x */", " x ");
    MoreComments("/* x */", " x ", " ", "");
    assert lead == "/* x */" + (" " + "");
    assert field == lead + ("b" + (":" + " s"));
    PlainField(field, lead, "b", " s", {"b"});
  }
}
