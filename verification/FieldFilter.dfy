/**
 * Filtering the fields of a whole generated file: the search for the braces around the body, and
 * whether a second run finds the same body again.
 */
module FieldFilter {
  import opened PropertyNames
  import opened Strings
  import opened TypeScanner
  import opened Wrappers

  // ---------------------------------------------------------------------------------------
  // Finding the braces
  // ---------------------------------------------------------------------------------------

  /** The scanner is outside strings and brackets. */
  predicate Outside(s: Scan) {
    s.stringDelim.None? && TopLevel(s)
  }

  /** Here the search remembers an opening brace. */
  predicate Opens(s: Scan, ch: char) {
    ch == '{' && Outside(s)
  }

  /** Here it ends, if it remembers one. */
  predicate Closes(s: Scan, ch: char) {
    ch == '}' && Outside(Observe(s, ch))
  }

  /**
   * The braces of the first body: the last opening brace at top level before the first closing
   * brace that leads back there; `at` is where the text starts.
   */
  function Span(s: Scan, open: Option<nat>, text: string, at: nat): Option<(nat, nat)>
    decreases |text|
  {
    if text == "" then None
    else
      var latest := if Opens(s, text[0]) then Some(at) else open;
      if Closes(s, text[0]) && latest.Some? then Some((latest.value, at))
      else Span(Observe(s, text[0]), latest, text[1..], at + 1)
  }

  /** `find_top_level_brace_span`. */
  method FindTopLevelBraceSpan(input: string) returns (r: Option<(nat, nat)>)
    ensures r == Span(START, None, input, 0)
  {
    var state := new ScanState();
    var openIndex: Option<nat> := None;
    assert input[0..] == input;
    for index := 0 to |input|
      invariant state.Valid() && fresh(state)
      invariant Span(START, None, input, 0) == Span(state.State(), openIndex, input[index..], index)
    {
      var ch := input[index];
      assert input[index..][1..] == input[index + 1..];
      if state.stringDelim.None? && ch == '{'
         && state.brace == 0 && state.bracket == 0 && state.paren == 0 && state.angle == 0 {
        openIndex := Some(index);
      }
      state.ObserveChar(ch);
      if state.stringDelim.None? && ch == '}'
         && state.brace == 0 && state.bracket == 0 && state.paren == 0 && state.angle == 0
         && openIndex.Some? {
        return Some((openIndex.value, index));
      }
    }
    r := None;
  }

  lemma {:induction false} SpanBounds(s: Scan, open: Option<nat>, text: string, at: nat)
    requires open.Some? ==> open.value < at
    ensures var r := Span(s, open, text, at);
      r.Some? ==>
        && r.value.0 < r.value.1 && at <= r.value.1 < at + |text|
        && (r.value.0 >= at || Some(r.value.0) == open)
        && (r.value.0 >= at ==> text[r.value.0 - at] == '{') && text[r.value.1 - at] == '}'
    decreases |text|
  {
    if text != "" {
      var latest := if Opens(s, text[0]) then Some(at) else open;
      SpanBounds(Observe(s, text[0]), latest, text[1..], at + 1);
    }
  }

  // ---------------------------------------------------------------------------------------
  // A body that is found again
  // ---------------------------------------------------------------------------------------

  /** The state behind the opening brace. */
  const INSIDE := Scan(1, 0, 0, 0, None, false)

  /**
   * Scanned from `s`, the text neither closes nor opens a body, and a closing brace behind it
   * closes one.
   */
  predicate Enclosed(s: Scan, text: string)
    decreases |text|
  {
    if text == "" then Closes(s, '}')
    else !Opens(s, text[0]) && !Closes(s, text[0]) && Enclosed(Observe(s, text[0]), text[1..])
  }

  /** Behind an opening brace the search ends at the brace behind the body exactly if the body is enclosed. */
  lemma {:induction false} SpanOfBody(s: Scan, open: nat, body: string, rest: string, at: nat)
    requires open < at && rest != "" && rest[0] == '}'
    ensures Span(s, Some(open), body + rest, at) == Some((open, at + |body|)) <==> Enclosed(s, body)
    decreases |body|
  {
    var text := body + rest;
    var latest := if Opens(s, text[0]) then Some(at) else Some(open);
    SpanBounds(Observe(s, text[0]), latest, text[1..], at + 1);
    if body == "" {
      assert text == rest;
    } else {
      assert text[1..] == body[1..] + rest;
      if !Opens(s, text[0]) && !Closes(s, text[0]) {
        SpanOfBody(Observe(s, text[0]), open, body[1..], rest, at + 1);
      }
    }
  }

  lemma SpanStep(s: Scan, open: Option<nat>, ch: char, rest: string, at: nat)
    ensures var latest := if Opens(s, ch) then Some(at) else open;
      Span(s, open, [ch] + rest, at) ==
      if Closes(s, ch) && latest.Some? then Some((latest.value, at)) else Span(Observe(s, ch), latest, rest, at + 1)
  {
    assert ([ch] + rest)[1..] == rest;
  }

  lemma ObserveReachable(s: Scan, ch: char)
    requires Reachable(s)
    ensures Reachable(Observe(s, ch))
    ensures Opens(s, ch) ==> Observe(s, ch) == INSIDE && !Closes(s, ch)
  {
  }

  /** The opening brace itself: what comes behind it does not matter for finding it. */
  lemma SpanAtBrace(s: Scan, open: Option<nat>, ch: char, x: string, y: string, at: nat)
    requires Reachable(s) && (open.Some? ==> open.value < at)
    requires var r := Span(s, open, [ch] + x, at); r.Some? && r.value.0 == at
    ensures Span(s, open, [ch] + y, at) == Span(INSIDE, Some(at), y, at + 1)
  {
    var latest := if Opens(s, ch) then Some(at) else open;
    SpanStep(s, open, ch, x, at);
    SpanStep(s, open, ch, y, at);
    SpanBounds(Observe(s, ch), latest, x, at + 1);
    ObserveReachable(s, ch);
  }

  /** What comes behind the opening brace does not matter for finding it. */
  lemma {:induction false} SpanBehind(s: Scan, open: Option<nat>, lead: string, x: string, y: string, at: nat)
    requires Reachable(s) && lead != "" && (open.Some? ==> open.value < at)
    requires var r := Span(s, open, lead + x, at); r.Some? && r.value.0 == at + |lead| - 1
    ensures Span(s, open, lead + y, at) == Span(INSIDE, Some(at + |lead| - 1), y, at + |lead|)
    decreases |lead|
  {
    var ch, rest := lead[0], lead[1..];
    if |lead| == 1 {
      assert lead + x == [ch] + x && lead + y == [ch] + y;
      SpanAtBrace(s, open, ch, x, y, at);
    } else {
      assert lead + x == [ch] + (rest + x) && lead + y == [ch] + (rest + y);
      SpanStep(s, open, ch, rest + x, at);
      SpanStep(s, open, ch, rest + y, at);
      ObserveReachable(s, ch);
      SpanBehind(Observe(s, ch), if Opens(s, ch) then Some(at) else open, rest, x, y, at + 1);
    }
  }

  // ---------------------------------------------------------------------------------------
  // The whole file
  // ---------------------------------------------------------------------------------------

  const INTERFACE_MARKER := "export interface"

  /** Where the search for the body starts: behind the first `=` or else behind `export interface`. */
  function BodyStart(content: string): Option<nat> {
    match FindFirst(content, '=')
    case Some(eq) => Some(eq + 1)
    case None =>
      match FindText(content, INTERFACE_MARKER)
      case Some(i) => Some(i + |INTERFACE_MARKER|)
      case None => None
  }

  lemma BodyStartFits(content: string)
    ensures BodyStart(content).Some? ==> BodyStart(content).value <= |content|
  {
    FindFirstFinds(content, '=');
    FindTextFits(content, INTERFACE_MARKER);
  }

  /** In an alias the search starts behind the first `=`. */
  lemma StartOfAlias(content: string, front: string, back: string)
    requires content == front + ("=" + back) && '=' !in front
    ensures BodyStart(content) == Some(|front| + 1)
  {
    FindFirstIs(content, '=', |front|);
  }

  /** In an interface it starts behind the keywords where they first occur. */
  lemma StartOfInterface(content: string, front: string, back: string)
    requires content == front + ("export interface" + back) && '=' !in content
    requires forall j | 0 <= j < |front| :: !OccursAt(content, "export interface", j)
    ensures BodyStart(content) == Some(|front| + 16)
  {
    FindFirstFinds(content, '=');
    assert content[|front|..] == "export interface" + back;
    FindTextIs(content, "export interface", |front|);
  }

  /** `type_body_brace_span`. */
  function BodySpan(content: string): Option<(nat, nat)> {
    BodyStartFits(content);
    match BodyStart(content)
    case None => None
    case Some(start) => Span(START, None, content[start..], start)
  }

  lemma BodySpanFits(content: string)
    ensures BodySpan(content).Some? ==>
      var (open, close) := BodySpan(content).value;
      && BodyStart(content).Some? && BodyStart(content).value <= open < close < |content|
      && content[open] == '{' && content[close] == '}'
  {
    BodyStartFits(content);
    if BodyStart(content).Some? {
      var start := BodyStart(content).value;
      SpanBounds(START, None, content[start..], start);
    }
  }

  function BodyOf(content: string): string
    requires BodySpan(content).Some?
  {
    BodySpanFits(content);
    content[BodySpan(content).value.0 + 1..BodySpan(content).value.1]
  }

  /** `filter_experimental_type_fields_ts_contents`, before unused imports are pruned. */
  function FilterFile(content: string, keep: string -> bool): string {
    BodySpanFits(content);
    match BodySpan(content)
    case None => content
    case Some((open, close)) => content[..open + 1] + FilterFields(BodyOf(content), keep) + content[close..]
  }

  // ---------------------------------------------------------------------------------------
  // The filter writes no character of its own but the separator
  // ---------------------------------------------------------------------------------------

  predicate Among(s: string, letters: set<char>) {
    forall i | 0 <= i < |s| :: s[i] in letters
  }

  lemma TrimAmong(s: string, letters: set<char>)
    requires Among(s, letters)
    ensures Among(Trim(s), letters)
  {
    var lead, trail := TrimSplits(s);
    forall i | 0 <= i < |Trim(s)| ensures Trim(s)[i] in letters {
      assert s[|lead| + i] == Trim(s)[i];
    }
  }

  lemma {:induction false} SplitAmong(text: string, delimiters: seq<char>, letters: set<char>)
    requires Among(text, letters)
    ensures forall part | part in Split(text, delimiters) :: Among(part, letters)
    decreases |text|
  {
    var n := FirstCut(START, text, delimiters);
    TrimAmong(text[..n], letters);
    if n < |text| {
      SplitAmong(text[n + 1..], delimiters, letters);
    }
  }

  lemma {:induction false} FilterAmong(keep: string -> bool, parts: seq<string>, letters: set<char>)
    requires forall part | part in parts :: Among(part, letters)
    ensures forall part | part in Filter(keep, parts) :: Among(part, letters)
  {
    if parts != [] {
      FilterAmong(keep, parts[1..], letters);
    }
  }

  lemma {:induction false} JoinAmong(parts: seq<string>, separator: string, letters: set<char>)
    requires Among(separator, letters) && forall part | part in parts :: Among(part, letters)
    ensures Among(Join(parts, separator), letters)
  {
    if |parts| > 1 {
      JoinAmong(parts[1..], separator, letters);
      assert parts[0] in parts;
    }
  }

  /** The filtered body has only characters of the body and of the separator. */
  lemma FieldsAmong(body: string, keep: string -> bool, c: char)
    requires c in FilterFields(body, keep)
    ensures c in body || c == ',' || c == ' '
  {
    var letters := (set d | d in body) + {',', ' '};
    SplitAmong(body, FIELD_DELIMITERS, letters);
    FilterAmong(keep, Split(body, FIELD_DELIMITERS), letters);
    JoinAmong(Filter(keep, Split(body, FIELD_DELIMITERS)), FIELD_SEPARATOR, letters);
  }

  // ---------------------------------------------------------------------------------------
  // The second run
  // ---------------------------------------------------------------------------------------

  lemma {:induction false} FindTextInPrefix(prefix: string, rest: string, other: string, pattern: string)
    requires FindText(prefix + rest, pattern).Some?
    requires FindText(prefix + rest, pattern).value + |pattern| <= |prefix|
    ensures FindText(prefix + other, pattern) == FindText(prefix + rest, pattern)
    decreases |prefix|
  {
    var text, changed := prefix + rest, prefix + other;
    FindTextFits(text, pattern);
    if pattern <= text {
      assert pattern <= changed by {
        assert text[..|pattern|] == changed[..|pattern|];
      }
    } else if prefix != "" {
      assert text[1..] == prefix[1..] + rest && changed[1..] == prefix[1..] + other;
      FindTextInPrefix(prefix[1..], rest, other, pattern);
      NotPrefix(pattern, text, changed);
    }
  }

  /** A pattern that fits in the common part is at the start of both texts or of neither. */
  lemma NotPrefix(pattern: string, a: string, b: string)
    requires |pattern| <= |a| && |pattern| <= |b| && a[..|pattern|] == b[..|pattern|]
    ensures pattern <= a <==> pattern <= b
  {
  }

  lemma NoneFound(s: string, c: char)
    ensures FindFirst(s, c).None? <==> c !in s
  {
    FindFirstFinds(s, c);
    if c in s {
      Found(s, c);
    }
  }

  lemma {:induction false} Found(s: string, c: char)
    requires c in s
    ensures FindFirst(s, c).Some?
  {
    if s[0] != c {
      assert c in s[1..];
      Found(s[1..], c);
    }
  }

  /** Behind a prefix that holds its start, the search starts at the same place in another text. */
  lemma SameStart(prefix: string, rest: string, other: string)
    requires BodyStart(prefix + rest).Some? && BodyStart(prefix + rest).value <= |prefix|
    requires '=' in other ==> '=' in prefix + rest
    ensures BodyStart(prefix + other) == BodyStart(prefix + rest)
  {
    FindFirstFinds(prefix + rest, '=');
    NoneFound(prefix + rest, '=');
    NoneFound(prefix + other, '=');
    if FindFirst(prefix + rest, '=').Some? {
      assert forall k | 0 <= k < |prefix| :: (prefix + other)[k] == (prefix + rest)[k];
      FindFirstIs(prefix + other, '=', FindFirst(prefix + rest, '=').value);
    } else {
      assert forall c | c in prefix :: c in prefix + rest;
      assert '=' !in prefix + other;
      FindTextInPrefix(prefix, rest, other, INTERFACE_MARKER);
    }
  }

  /** The body between these ends is the one that the search finds. */
  predicate HasBody(head: string, body: string, tail: string) {
    head != "" && BodySpan(head + body + tail) == Some((|head| - 1, |head| + |body|))
  }

  lemma BodyEnds(head: string, body: string, tail: string)
    requires HasBody(head, body, tail)
    ensures tail != "" && tail[0] == '}'
    ensures BodyStart(head + body + tail).Some? && BodyStart(head + body + tail).value < |head|
  {
    BodySpanFits(head + body + tail);
    assert (head + body + tail)[|head| + |body|] == tail[0];
  }

  /** Another body between the same ends is found exactly if it is enclosed. */
  lemma OtherBody(head: string, body: string, tail: string, other: string)
    requires HasBody(head, body, tail) && ('=' in other ==> '=' in head + body + tail)
    ensures HasBody(head, other, tail) <==> Enclosed(INSIDE, other)
  {
    var content, out := head + body + tail, head + other + tail;
    assert content == head + (body + tail) && out == head + (other + tail);
    BodyEnds(head, body, tail);
    assert '=' in other + tail ==> '=' in content;
    SameStart(head, body + tail, other + tail);
    var start := BodyStart(content).value;
    var lead := head[start..];
    assert content[start..] == lead + (body + tail) && out[start..] == lead + (other + tail);
    SpanBehind(START, None, lead, body + tail, other + tail, start);
    SpanOfBody(INSIDE, |head| - 1, other, tail, |head|);
  }

  lemma FilterFound(head: string, body: string, tail: string, keep: string -> bool)
    requires HasBody(head, body, tail)
    ensures FilterFile(head + body + tail, keep) == head + FilterFields(body, keep) + tail
  {
    var content := head + body + tail;
    BodySpanFits(content);
    assert content[..|head|] == head;
    assert content[|head|..|head| + |body|] == body;
    assert content[|head| + |body|..] == tail;
  }

  /** Any file with a body is of this form. */
  lemma FileParts(content: string) returns (head: string, body: string, tail: string)
    requires BodySpan(content).Some?
    ensures content == head + body + tail && HasBody(head, body, tail) && body == BodyOf(content)
    ensures var (open, close) := BodySpan(content).value;
      open < close < |content| && head == content[..open + 1] && tail == content[close..]
  {
    BodySpanFits(content);
    var (open, close) := BodySpan(content).value;
    head, body, tail := content[..open + 1], content[open + 1..close], content[close..];
    assert content == head + body + tail;
  }

  lemma BodyFound(head: string, body: string, tail: string)
    requires HasBody(head, body, tail)
    ensures BodyOf(head + body + tail) == body
  {
    assert (head + body + tail)[|head|..|head| + |body|] == body;
  }

  lemma FilterParts(head: string, body: string, tail: string, keep: string -> bool)
    requires HasBody(head, body, tail)
    ensures var kept := FilterFields(body, keep);
      var out := FilterFile(head + body + tail, keep);
      && out == head + kept + tail
      && Split(kept, FIELD_DELIMITERS) == Filter(keep, Split(body, FIELD_DELIMITERS))
      && (HasBody(head, kept, tail) <==> Enclosed(INSIDE, kept))
      && (Enclosed(INSIDE, kept) ==> FilterFile(out, keep) == out)
  {
    var kept := FilterFields(body, keep);
    FilterFound(head, body, tail, keep);
    FilterFieldsExact(body, keep);
    if '=' in kept {
      FieldsAmong(body, keep, '=');
    }
    OtherBody(head, body, tail, kept);
    if Enclosed(INSIDE, kept) {
      FilterFound(head, kept, tail, keep);
    }
  }

  /** The search finds the same opening brace again, and this body behind it. */
  predicate SameBody(content: string, once: string, body: string) {
    BodySpan(content).Some? && BodySpan(once).Some?
    && BodySpan(once).value.0 == BodySpan(content).value.0 && BodyOf(once) == body
  }

  lemma SameBodyIs(content: string, head: string, once: string, body: string, tail: string)
    requires BodySpan(content).Some? && |head| == BodySpan(content).value.0 + 1 && once == head + body + tail
    ensures SameBody(content, once, body) <==> HasBody(head, body, tail)
  {
    if SameBody(content, once, body) {
      BodySpanFits(once);
    }
    if HasBody(head, body, tail) {
      BodyFound(head, body, tail);
    }
  }

  /**
   * Filtering any file.  Without a body it stays as it is.  Otherwise only the body changes, to
   * exactly the wanted fields; a second run finds that same body exactly if the kept fields,
   * joined and scanned from behind an opening brace, are enclosed; and then it changes nothing.
   */
  lemma FilterFileExact(content: string, keep: string -> bool)
    ensures BodySpan(content).None? ==> FilterFile(content, keep) == content
    ensures BodySpan(content).Some? ==>
      var (open, close) := BodySpan(content).value;
      var kept, once := FilterFields(BodyOf(content), keep), FilterFile(content, keep);
      && open < close < |content|
      && once == content[..open + 1] + kept + content[close..]
      && Split(kept, FIELD_DELIMITERS) == Filter(keep, Split(BodyOf(content), FIELD_DELIMITERS))
      && (SameBody(content, once, kept) <==> Enclosed(INSIDE, kept))
      && (Enclosed(INSIDE, kept) ==> FilterFile(once, keep) == once)
  {
    if BodySpan(content).Some? {
      var head, body, tail := FileParts(content);
      FilterParts(head, body, tail, keep);
      SameBodyIs(content, head, FilterFile(content, keep), FilterFields(body, keep), tail);
    }
  }

  /** A run changes nothing exactly if there is no body, or the body is its filtered fields, joined. */
  lemma UnchangedExactly(content: string, keep: string -> bool)
    ensures FilterFile(content, keep) == content <==>
      BodySpan(content).None? || FilterFields(BodyOf(content), keep) == BodyOf(content)
  {
    if BodySpan(content).Some? {
      var head, body, tail := FileParts(content);
      var kept := FilterFields(body, keep);
      FilterFound(head, body, tail, keep);
      if head + kept + tail == content {
        assert |kept| == |body|;
        assert content[|head|..|head| + |body|] == kept;
      }
    }
  }

  lemma {:induction false} FilterSatisfies(keep: string -> bool, parts: seq<string>)
    ensures forall part :: part in Filter(keep, parts) <==> part in parts && keep(part)
  {
    if parts != [] {
      FilterSatisfies(keep, parts[1..]);
      assert parts == [parts[0]] + parts[1..];
    }
  }

  /** Filtered by names, the body has exactly those of its fields that declare none of them. */
  lemma ListedFieldsGo(body: string, names: set<string>)
    ensures forall field :: field in Split(FilterFields(body, Unlisted(names)), FIELD_DELIMITERS) <==>
      field in Split(body, FIELD_DELIMITERS) && !DeclaresOne(BehindComments(TrimStart(field)), names)
  {
    var keep := Unlisted(names);
    FilterFieldsExact(body, keep);
    FilterSatisfies(keep, Split(body, FIELD_DELIMITERS));
    forall field: string
      ensures keep(field) <==> !DeclaresOne(BehindComments(TrimStart(field)), names)
    {
      ListedIffDeclared(field, names);
    }
  }

  // ---------------------------------------------------------------------------------------
  // Which fields are enclosed
  // ---------------------------------------------------------------------------------------

  /** No closing brace of the text is without an opening one before it. */
  predicate NoDip(s: Scan, text: string)
    decreases |text|
  {
    text != "" ==>
      !(s.stringDelim.None? && text[0] == '}' && s.brace == 0) && NoDip(Observe(s, text[0]), text[1..])
  }

  function Lift(s: Scan): Scan {
    s.(brace := s.brace + 1)
  }

  /** One level deeper the scanner does the same, and is never back at top level. */
  lemma {:induction false} LiftedRun(s: Scan, text: string, rest: string)
    requires NoDip(s, text)
    ensures Enclosed(Lift(s), text + rest) <==> Enclosed(Lift(Run(s, text)), rest)
    decreases |text|
  {
    if text == "" {
      assert text + rest == rest;
    } else {
      assert (text + rest)[1..] == text[1..] + rest;
      assert Observe(Lift(s), text[0]) == Lift(Observe(s, text[0]));
      LiftedRun(Observe(s, text[0]), text[1..], rest);
    }
  }

  /** A field that closes all it opens, and nothing else. */
  predicate Balanced(field: string) {
    NoDip(START, field) && Run(START, field) == START
  }

  /**
   * Of fields that close nothing they have not opened only the last matters: it must close all
   * it opens.
   */
  lemma {:induction false} JoinedFieldsEnclosed(fields: seq<string>)
    requires ArePartsOf(fields, FIELD_DELIMITERS) && forall field | field in fields :: NoDip(START, field)
    ensures Enclosed(INSIDE, Join(fields, FIELD_SEPARATOR)) <==>
      fields == [] || Run(START, fields[|fields| - 1]) == START
  {
    assert INSIDE == Lift(START);
    if |fields| == 1 {
      RunReachable(START, fields[0]);
      LiftedRun(START, fields[0], "");
      assert fields[0] + "" == fields[0];
    } else if |fields| > 1 {
      var rest := Join(fields[1..], FIELD_SEPARATOR);
      JoinedFieldsEnclosed(fields[1..]);
      assert Join(fields, FIELD_SEPARATOR) == fields[0] + (FIELD_SEPARATOR + rest);
      assert fields[0] in fields;
      LiftedRun(START, fields[0], FIELD_SEPARATOR + rest);
      assert NoDip(START, FIELD_SEPARATOR) && Run(START, FIELD_SEPARATOR) == START by {
        assert FIELD_SEPARATOR[1..] == " " && FIELD_SEPARATOR[1..][1..] == "";
      }
      LiftedRun(START, FIELD_SEPARATOR, rest);
    }
  }

  lemma {:induction false} FilterMembers(keep: string -> bool, parts: seq<string>)
    ensures forall part | part in Filter(keep, parts) :: part in parts
  {
    if parts != [] {
      FilterMembers(keep, parts[1..]);
    }
  }

  lemma BalancedKept(parts: seq<string>, keep: string -> bool)
    requires ArePartsOf(parts, FIELD_DELIMITERS) && forall field | field in parts :: Balanced(field)
    ensures Enclosed(INSIDE, Join(Filter(keep, parts), FIELD_SEPARATOR))
  {
    var kept := Filter(keep, parts);
    FilterPicks(keep, parts);
    PickedParts(kept, parts, FIELD_DELIMITERS);
    FilterMembers(keep, parts);
    JoinedFieldsEnclosed(kept);
    if kept != [] {
      assert kept[|kept| - 1] in kept;
    }
  }

  lemma {:induction false} NoDipSplit(s: Scan, u: string, v: string)
    ensures NoDip(s, u + v) <==> NoDip(s, u) && NoDip(Run(s, u), v)
    decreases |u|
  {
    if u == "" {
      assert u + v == v;
    } else {
      assert (u + v)[1..] == u[1..] + v;
      NoDipSplit(Observe(s, u[0]), u[1..], v);
    }
  }

  lemma CoreNoDip(lead: string, core: string, trail: string)
    requires AllSpace(lead) && NoDip(START, lead + core + trail)
    ensures NoDip(START, core)
  {
    Separators();
    assert lead + core + trail == lead + (core + trail);
    NoDipSplit(START, lead, core + trail);
    SpaceKeepsStart(lead, FIELD_DELIMITERS);
    NoDipSplit(START, core, trail);
  }

  lemma PieceBalanced(piece: string)
    requires FirstCut(START, piece, FIELD_DELIMITERS) == |piece|
    requires NoDip(START, piece) && Run(START, piece) == START
    ensures forall part | part in Keep(piece) :: Balanced(part)
  {
    if Trim(piece) != "" {
      Separators();
      KeptIsPart(piece, FIELD_DELIMITERS);
      var lead, trail := TrimSplits(piece);
      CoreNoDip(lead, Trim(piece), trail);
    }
  }

  /** The fields of a text that closes all it opens, and nothing else, do so too. */
  lemma {:induction false} FieldsBalanced(text: string)
    requires NoDip(START, text) && Run(START, text) == START
    ensures forall part | part in Split(text, FIELD_DELIMITERS) :: Balanced(part)
    decreases |text|
  {
    Separators();
    var n := FirstCut(START, text, FIELD_DELIMITERS);
    FirstCutCuts(START, text, FIELD_DELIMITERS);
    assert text == text[..n] + text[n..];
    NoDipSplit(START, text[..n], text[n..]);
    if n < |text| {
      AfterCut(text, n, FIELD_DELIMITERS);
      assert text == text[..n + 1] + text[n + 1..];
      NoDipSplit(START, text[..n + 1], text[n + 1..]);
      RunSplit(START, text[..n + 1], text[n + 1..]);
      FieldsBalanced(text[n + 1..]);
    } else {
      assert text[..n] == text;
    }
    PieceBalanced(text[..n]);
  }

  /** A body that is found and closes no brace too many closes all it opens. */
  lemma FoundBodyCloses(head: string, body: string, tail: string)
    requires HasBody(head, body, tail) && NoDip(START, body)
    ensures Run(START, body) == START
  {
    OtherBody(head, body, tail, body);
    LiftedRun(START, body, "");
    assert body + "" == body && INSIDE == Lift(START);
    RunReachable(START, body);
  }

  /**
   * For every body in which no brace is closed before it is opened, filtering the file is
   * idempotent, whatever is filtered out, and both runs touch the same body.
   */
  lemma SoundFileIdempotent(content: string, keep: string -> bool)
    requires BodySpan(content).Some? ==> NoDip(START, BodyOf(content))
    ensures var once := FilterFile(content, keep);
      && FilterFile(once, keep) == once
      && (BodySpan(content).Some? ==> SameBody(content, once, FilterFields(BodyOf(content), keep)))
  {
    if BodySpan(content).Some? {
      Separators();
      var head, body, tail := FileParts(content);
      FoundBodyCloses(head, body, tail);
      FieldsBalanced(body);
      SplitGivesParts(body, FIELD_DELIMITERS);
      BalancedKept(Split(body, FIELD_DELIMITERS), keep);
    }
    FilterFileExact(content, keep);
  }

  // ---------------------------------------------------------------------------------------
  // A file on which the second run cuts elsewhere
  // ---------------------------------------------------------------------------------------

  /** The fields `b` go and the fields `c` stay. */
  predicate RemovesB(keep: string -> bool) {
    !keep("b:(})") && keep("c:({)") && keep("c:({)}") && !keep("b:z")
  }

  lemma PlainB()
    ensures !Stays("b:(})", {"b"}) && !Stays("b:z", {"b"})
  {
    PlainField("b:(})", "", "b", "(})", {"b"});
    PlainField("b:z", "", "b", "z", {"b"});
  }

  lemma PlainC()
    ensures Stays("c:({)", {"b"}) && Stays("c:({)}", {"b"})
  {
    PlainField("c:({)", "", "c", "({)", {"b"});
    PlainField("c:({)}", "", "c", "({)}", {"b"});
  }

  lemma UnlistedRemovesB()
    ensures RemovesB(Unlisted({"b"}))
  {
    PlainB();
    PlainC();
  }

  /** The scanner passes through these states on the text. */
  predicate Trace(states: seq<Scan>, text: string) {
    |states| == |text| + 1 && forall i | 0 <= i < |text| :: Observe(states[i], text[i]) == states[i + 1]
  }

  /** On the way the text neither opens nor closes a body. */
  predicate StaysInside(states: seq<Scan>, text: string)
    requires |states| == |text| + 1
  {
    forall i | 0 <= i < |text| :: !Opens(states[i], text[i]) && !Closes(states[i], text[i])
  }

  lemma {:induction false} TraceEnclosed(states: seq<Scan>, text: string, rest: string)
    requires Trace(states, text) && StaysInside(states, text)
    ensures Enclosed(states[0], text + rest) <==> Enclosed(states[|text|], rest)
    decreases |text|
  {
    if text == "" {
      assert text + rest == rest;
    } else {
      assert (text + rest)[1..] == text[1..] + rest;
      TraceEnclosed(states[1..], text[1..], rest);
    }
  }

  /** The first cut is behind a text without cuts. */
  lemma {:induction false} TraceCut(states: seq<Scan>, text: string, rest: string)
    requires Trace(states, text)
    requires forall i | 0 <= i < |text| :: !Cuts(states[i], text[i], FIELD_DELIMITERS)
    requires rest != "" ==> Cuts(states[|text|], rest[0], FIELD_DELIMITERS)
    ensures FirstCut(states[0], text + rest, FIELD_DELIMITERS) == |text|
    decreases |text|
  {
    if text == "" {
      assert text + rest == rest;
    } else {
      assert (text + rest)[1..] == text[1..] + rest;
      TraceCut(states[1..], text[1..], rest);
    }
  }

  /** So many braces and parentheses open. */
  function At(brace: nat, paren: nat): Scan {
    Scan(brace, 0, paren, 0, None, false)
  }

  lemma FirstPieces()
    ensures "b:(})," + "c:({)" == "b:(}),c:({)" && "b:(})" + ",c:({)" == "b:(}),c:({)"
  {
  }

  lemma SecondPieces()
    ensures "c:({)}" + ",b:z" == "c:({)},b:z" && ",b:z" + "" == ",b:z"
  {
  }

  lemma EnclosedC()
    ensures Enclosed(At(0, 0), "c:({)")
  {
    TraceEnclosed([At(0, 0), At(0, 0), At(0, 0), At(0, 1), At(1, 1), At(1, 0)], "c:({)", "");
    assert "c:({)" + "" == "c:({)";
  }

  lemma EnclosedFirst()
    ensures Enclosed(INSIDE, "b:(}),c:({)")
  {
    TraceEnclosed([At(1, 0), At(1, 0), At(1, 0), At(1, 1), At(0, 1), At(0, 0), At(0, 0)], "b:(}),", "c:({)");
    EnclosedC();
    FirstPieces();
  }

  lemma CutFirst()
    ensures FirstCut(START, "b:(}),c:({)", FIELD_DELIMITERS) == 5
  {
    TraceCut([At(0, 0), At(0, 0), At(0, 0), At(0, 1), At(0, 1), At(0, 0)], "b:(})", ",c:({)");
    FirstPieces();
  }

  lemma CutC()
    ensures FirstCut(START, "c:({)", FIELD_DELIMITERS) == 5
  {
    TraceCut([At(0, 0), At(0, 0), At(0, 0), At(0, 1), At(1, 1), At(1, 0)], "c:({)", "");
    assert "c:({)" + "" == "c:({)";
  }

  lemma EnclosedB()
    ensures Enclosed(INSIDE, ",b:z")
  {
    TraceEnclosed([At(1, 0), At(1, 0), At(1, 0), At(1, 0), At(1, 0)], ",b:z", "");
    SecondPieces();
  }

  lemma EnclosedSecond()
    ensures Enclosed(INSIDE, "c:({)},b:z")
  {
    TraceEnclosed([At(1, 0), At(1, 0), At(1, 0), At(1, 1), At(2, 1), At(2, 0), At(1, 0)], "c:({)}", ",b:z");
    EnclosedB();
    SecondPieces();
  }

  lemma CutSecond()
    ensures FirstCut(START, "c:({)},b:z", FIELD_DELIMITERS) == 6
  {
    TraceCut([At(0, 0), At(0, 0), At(0, 0), At(0, 1), At(1, 1), At(1, 0), At(0, 0)], "c:({)}", ",b:z");
    SecondPieces();
  }

  lemma CutB()
    ensures FirstCut(START, "b:z", FIELD_DELIMITERS) == 3
  {
    TraceCut([At(0, 0), At(0, 0), At(0, 0), At(0, 0)], "b:z", "");
    assert "b:z" + "" == "b:z";
  }

  lemma EnclosedIsBody(body: string, tail: string)
    requires Enclosed(INSIDE, body) && tail != "" && tail[0] == '}'
    ensures HasBody("={", body, tail)
  {
    var content := "={" + body + tail;
    assert content[0] == '=' && content[1..] == ['{'] + (body + tail);
    SpanStep(START, None, '{', body + tail, 1);
    SpanOfBody(INSIDE, 1, body, tail, 2);
  }

  lemma OneField(field: string)
    requires field != "" && FirstCut(START, field, FIELD_DELIMITERS) == |field|
    requires !IsSpace(field[0]) && !IsSpace(field[|field| - 1])
    ensures Split(field, FIELD_DELIMITERS) == [field]
  {
    TrimVisible(field);
    assert field[..|field|] == field;
  }

  /** Two fields, each without white space around it. */
  lemma TwoFields(first: string, second: string)
    requires first != "" && !IsSpace(first[0]) && !IsSpace(first[|first| - 1])
    requires second != "" && !IsSpace(second[0]) && !IsSpace(second[|second| - 1])
    requires FirstCut(START, first + "," + second, FIELD_DELIMITERS) == |first|
    requires FirstCut(START, second, FIELD_DELIMITERS) == |second|
    ensures Split(first + "," + second, FIELD_DELIMITERS) == [first, second]
  {
    var text := first + "," + second;
    assert text[..|first|] == first && text[|first| + 1..] == second;
    TrimVisible(first);
    OneField(second);
    assert [first] + [second] == [first, second];
  }

  lemma KeepOne(body: string, first: string, second: string, field: string, keep: string -> bool)
    requires Split(body, FIELD_DELIMITERS) == [first, second] && field in [first, second] && keep(field)
    requires forall other | other in [first, second] && other != field :: !keep(other)
    requires first != second
    ensures FilterFields(body, keep) == field
  {
    assert [first, second][1..] == [second] && [second][1..] == [];
    assert first in [first, second] && second in [first, second];
    assert Filter(keep, [second]) == if keep(second) then [second] else [];
    assert Filter(keep, [first, second]) == [field];
  }

  lemma TwoPieces()
    ensures "b:(}),c:({)" == "b:(})" + "," + "c:({)"
    ensures "c:({)},b:z" == "c:({)}" + "," + "b:z"
  {
  }

  lemma Visible()
    ensures forall field | field in ["b:(})", "c:({)", "c:({)}", "b:z"] ::
      field != "" && !IsSpace(field[0]) && !IsSpace(field[|field| - 1])
  {
  }

  lemma SplitFirst()
    ensures Split("b:(}),c:({)", FIELD_DELIMITERS) == ["b:(})", "c:({)"]
  {
    CutFirst();
    CutC();
    TwoPieces();
    Visible();
    TwoFields("b:(})", "c:({)");
  }

  lemma SplitSecond()
    ensures Split("c:({)},b:z", FIELD_DELIMITERS) == ["c:({)}", "b:z"]
  {
    CutSecond();
    CutB();
    TwoPieces();
    Visible();
    TwoFields("c:({)}", "b:z");
  }

  lemma FieldsFirst(keep: string -> bool)
    requires RemovesB(keep)
    ensures FilterFields("b:(}),c:({)", keep) == "c:({)"
  {
    var first, second := "b:(})", "c:({)";
    SplitFirst();
    KeepOne("b:(}),c:({)", first, second, second, keep);
  }

  lemma FieldsSecond(keep: string -> bool)
    requires RemovesB(keep)
    ensures FilterFields("c:({)},b:z", keep) == "c:({)}"
  {
    var first, second := "c:({)}", "b:z";
    SplitSecond();
    KeepOne("c:({)},b:z", first, second, first, keep);
  }

  lemma RunOn(content: string, body: string, tail: string, kept: string, out: string,
      keep: string -> bool)
    requires content == "={" + body + tail && tail != "" && tail[0] == '}' && out == "={" + kept + tail
    requires Enclosed(INSIDE, body) && FilterFields(body, keep) == kept
    ensures FilterFile(content, keep) == out
  {
    EnclosedIsBody(body, tail);
    FilterFound("={", body, tail, keep);
  }

  lemma Concatenated()
    ensures "={b:(}),c:({)},b:z}" == "={" + "b:(}),c:({)" + "},b:z}"
    ensures "={c:({)},b:z}" == "={" + "c:({)" + "},b:z}"
  {
  }

  lemma ConcatenatedAgain()
    ensures "={c:({)},b:z}" == "={" + "c:({)},b:z" + "}"
    ensures "={c:({)}}" == "={" + "c:({)}" + "}"
  {
  }

  /** Removing `b` from `={b:(}),c:({)},b:z}` leaves `={c:({)},b:z}`. */
  lemma FirstRun(content: string, out: string, keep: string -> bool)
    requires RemovesB(keep)
    requires content == "={b:(}),c:({)},b:z}" && out == "={c:({)},b:z}"
    ensures FilterFile(content, keep) == out
  {
    EnclosedFirst();
    FieldsFirst(keep);
    Concatenated();
    RunOn(content, "b:(}),c:({)", "},b:z}", "c:({)", out, keep);
  }

  /** Removing it again leaves `={c:({)}}`. */
  lemma SecondRun(content: string, out: string, keep: string -> bool)
    requires RemovesB(keep)
    requires content == "={c:({)},b:z}" && out == "={c:({)}}"
    ensures FilterFile(content, keep) == out
  {
    EnclosedSecond();
    FieldsSecond(keep);
    ConcatenatedAgain();
    RunOn(content, "c:({)},b:z", "}", "c:({)}", out, keep);
  }

  /** A file that a second run changes. */
  lemma SecondRunDiffers(content: string, keep: string -> bool)
    requires content == "={b:(}),c:({)},b:z}" && keep == Unlisted({"b"})
    ensures FilterFile(FilterFile(content, keep), keep) != FilterFile(content, keep)
  {
    var once, twice := "={c:({)},b:z}", "={c:({)}}";
    UnlistedRemovesB();
    FirstRun(content, once, keep);
    SecondRun(once, twice, keep);
  }
}
