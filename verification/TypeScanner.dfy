/**
 * The bracket- and string-aware scanner that splits generated TypeScript type bodies, and the
 * filters that drop union arms and fields from them.
 */
module TypeScanner {
  import opened Strings
  import opened Wrappers

  /** Open brackets of each kind, and the string literal being read, if any. */
  datatype Scan = Scan(
    brace: nat, bracket: nat, paren: nat, angle: nat,
    stringDelim: Option<char>, escape: bool)

  const START := Scan(0, 0, 0, 0, None, false)

  function Observe(s: Scan, ch: char): Scan {
    if s.stringDelim.Some? then
      if s.escape then s.(escape := false)
      else if ch == '\\' then s.(escape := true)
      else if ch == s.stringDelim.value then s.(stringDelim := None)
      else s
    else if ch == '"' || ch == '\'' then s.(stringDelim := Some(ch))
    else if ch == '{' then s.(brace := s.brace + 1)
    else if ch == '}' then s.(brace := Less(s.brace))
    else if ch == '[' then s.(bracket := s.bracket + 1)
    else if ch == ']' then s.(bracket := Less(s.bracket))
    else if ch == '(' then s.(paren := s.paren + 1)
    else if ch == ')' then s.(paren := Less(s.paren))
    else if ch == '<' then s.(angle := s.angle + 1)
    else if ch == '>' then s.(angle := Less(s.angle))
    else s
  }

  function Less(depth: nat): nat {
    if depth == 0 then 0 else depth - 1
  }

  predicate TopLevel(s: Scan) {
    s.brace == 0 && s.bracket == 0 && s.paren == 0 && s.angle == 0
  }

  /** The scanner cuts here: outside strings and brackets, at a delimiter. */
  predicate Cuts(s: Scan, ch: char, delimiters: seq<char>) {
    s.stringDelim.None? && TopLevel(s) && ch in delimiters
  }

  /** The scanner object: `observe` changes it one character at a time. */
  class ScanState {
    var brace: int
    var bracket: int
    var paren: int
    var angle: int
    var stringDelim: Option<char>
    var escape: bool

    predicate Valid()
      reads this
    {
      0 <= brace && 0 <= bracket && 0 <= paren && 0 <= angle
    }

    function State(): Scan
      requires Valid()
      reads this
    {
      Scan(brace, bracket, paren, angle, stringDelim, escape)
    }

    constructor ()
      ensures Valid() && State() == START
    {
      brace, bracket, paren, angle := 0, 0, 0, 0;
      stringDelim, escape := None, false;
    }

    method ObserveChar(ch: char)
      requires Valid()
      modifies this
      ensures Valid() && State() == Observe(old(State()), ch)
    {
      if stringDelim.Some? {
        if escape {
          escape := false;
        } else if ch == '\\' {
          escape := true;
        } else if ch == stringDelim.value {
          stringDelim := None;
        }
        return;
      }
      match ch {
        case '"' => stringDelim := Some(ch);
        case '\'' => stringDelim := Some(ch);
        case '{' => brace := brace + 1;
        case '}' => brace := Max(brace - 1, 0);
        case '[' => bracket := bracket + 1;
        case ']' => bracket := Max(bracket - 1, 0);
        case '(' => paren := paren + 1;
        case ')' => paren := Max(paren - 1, 0);
        case '<' => angle := angle + 1;
        case '>' => if angle > 0 { angle := angle - 1; }
        case _ =>
      }
    }
  }

  function Max(x: int, y: int): int {
    if x < y then y else x
  }

  // ---------------------------------------------------------------------------------------
  // Trimming and joining
  // ---------------------------------------------------------------------------------------

  function TrimStart(s: string): string {
    if s != "" && IsSpace(s[0]) then TrimStart(s[1..]) else s
  }

  function TrimEnd(s: string): string {
    if s != "" && IsSpace(s[|s| - 1]) then TrimEnd(s[..|s| - 1]) else s
  }

  function Trim(s: string): string {
    TrimEnd(TrimStart(s))
  }

  function Join(parts: seq<string>, separator: string): string {
    if parts == [] then ""
    else if |parts| == 1 then parts[0]
    else parts[0] + separator + Join(parts[1..], separator)
  }

  // ---------------------------------------------------------------------------------------
  // Splitting
  // ---------------------------------------------------------------------------------------

  function Run(s: Scan, text: string): Scan
    decreases |text|
  {
    if text == "" then s else Run(Observe(s, text[0]), text[1..])
  }

  /** Where the scanner, started in `s`, first cuts; the length of the text if it never does. */
  function FirstCut(s: Scan, text: string, delimiters: seq<char>): (n: nat)
    ensures n <= |text|
    decreases |text|
  {
    if text == "" || Cuts(s, text[0], delimiters) then 0
    else 1 + FirstCut(Observe(s, text[0]), text[1..], delimiters)
  }

  function Keep(part: string): seq<string> {
    if Trim(part) == "" then [] else [Trim(part)]
  }

  /** One scan through the whole text, the scanner's state carried across cuts. */
  function SplitFrom(s: Scan, text: string, delimiters: seq<char>): seq<string>
    decreases |text|
  {
    var n := FirstCut(s, text, delimiters);
    Keep(text[..n])
    + if n == |text| then [] else SplitFrom(Run(s, text[..n + 1]), text[n + 1..], delimiters)
  }

  /** The reference: every part is found by a scanner that starts afresh. */
  function Split(text: string, delimiters: seq<char>): seq<string>
    decreases |text|, 1
  {
    var n := FirstCut(START, text, delimiters);
    Keep(text[..n]) + SplitBehind(text, n, delimiters)
  }

  function SplitBehind(text: string, cut: nat, delimiters: seq<char>): seq<string>
    requires cut <= |text|
    decreases |text|, 0
  {
    if cut == |text| then [] else Split(text[cut + 1..], delimiters)
  }

  /** A delimiter is no bracket, no quote and no white space. */
  predicate Neutral(delimiters: seq<char>) {
    forall d | d in delimiters :: Observe(START, d) == START && !IsSpace(d)
  }

  predicate Reachable(s: Scan) {
    match s.stringDelim
    case None => !s.escape
    case Some(quote) => quote == '"' || quote == '\''
  }

  lemma {:induction false} RunSplit(s: Scan, u: string, v: string)
    ensures Run(s, u + v) == Run(Run(s, u), v)
    decreases |u|
  {
    if u == "" {
      assert u + v == v;
    } else {
      assert (u + v)[1..] == u[1..] + v;
      RunSplit(Observe(s, u[0]), u[1..], v);
    }
  }

  lemma {:induction false} RunReachable(s: Scan, text: string)
    requires Reachable(s)
    ensures Reachable(Run(s, text))
    decreases |text|
  {
    if text != "" {
      RunReachable(Observe(s, text[0]), text[1..]);
    }
  }

  /** At the first cut the scanner is outside everything. */
  lemma {:induction false} FirstCutCuts(s: Scan, text: string, delimiters: seq<char>)
    ensures var n := FirstCut(s, text, delimiters);
      && (n < |text| ==> Cuts(Run(s, text[..n]), text[n], delimiters))
      && FirstCut(s, text[..n], delimiters) == n
    decreases |text|
  {
    var n := FirstCut(s, text, delimiters);
    if text != "" && !Cuts(s, text[0], delimiters) {
      FirstCutCuts(Observe(s, text[0]), text[1..], delimiters);
      assert text[..n][1..] == text[1..][..n - 1];
      assert text[..n][0] == text[0];
    }
  }

  /** If the first part of a text has no cut, the scan goes on behind it. */
  lemma {:induction false} FirstCutSkips(s: Scan, u: string, v: string, delimiters: seq<char>)
    requires FirstCut(s, u, delimiters) == |u|
    ensures FirstCut(s, u + v, delimiters) == |u| + FirstCut(Run(s, u), v, delimiters)
    decreases |u|
  {
    if u == "" {
      assert u + v == v;
    } else {
      assert (u + v)[1..] == u[1..] + v;
      FirstCutSkips(Observe(s, u[0]), u[1..], v, delimiters);
    }
  }

  /** A cut in the first part of a text is the first cut of the text. */
  lemma {:induction false} FirstCutPrefix(s: Scan, u: string, v: string, delimiters: seq<char>)
    requires FirstCut(s, u + v, delimiters) >= |u|
    ensures FirstCut(s, u, delimiters) == |u|
    decreases |u|
  {
    if u != "" {
      assert (u + v)[1..] == u[1..] + v;
      FirstCutPrefix(Observe(s, u[0]), u[1..], v, delimiters);
    }
  }

  lemma AfterCut(text: string, n: nat, delimiters: seq<char>)
    requires Neutral(delimiters) && n < |text| && n == FirstCut(START, text, delimiters)
    ensures Run(START, text[..n]) == START && Run(START, text[..n + 1]) == START
  {
    FirstCutCuts(START, text, delimiters);
    RunReachable(START, text[..n]);
    RunSplit(START, text[..n], [text[n]]);
    assert text[..n + 1] == text[..n] + [text[n]];
    assert Run(START, [text[n]]) == Observe(START, text[n]);
  }

  /** One cut of the scan: the piece before it, then the text behind the delimiter. */
  lemma SplitFromStep(s: Scan, left: string, right: string, delimiters: seq<char>)
    requires FirstCut(s, left, delimiters) == |left|
    requires right != "" ==> Cuts(Run(s, left), right[0], delimiters)
    ensures SplitFrom(s, left + right, delimiters)
         == Keep(left) + if right == "" then [] else SplitFrom(Run(s, left + [right[0]]), right[1..], delimiters)
  {
    var text := left + right;
    FirstCutSkips(s, left, right, delimiters);
    assert text[..|left|] == left;
    if right != "" {
      assert text[..|left| + 1] == left + [right[0]];
      assert text[|left| + 1..] == right[1..];
    }
  }

  /** The same for the reference. */
  lemma SplitStep(left: string, right: string, delimiters: seq<char>)
    requires FirstCut(START, left, delimiters) == |left|
    requires right != "" ==> Cuts(Run(START, left), right[0], delimiters)
    ensures Split(left + right, delimiters)
         == Keep(left) + if right == "" then [] else Split(right[1..], delimiters)
  {
    var text := left + right;
    FirstCutSkips(START, left, right, delimiters);
    assert text[..|left|] == left;
    if right != "" {
      assert text[|left| + 1..] == right[1..];
    }
  }

  /** Carrying the state across cuts changes nothing: the scanner is back at its start there. */
  lemma {:induction false} CarriedIsFresh(text: string, delimiters: seq<char>)
    requires Neutral(delimiters)
    ensures SplitFrom(START, text, delimiters) == Split(text, delimiters)
    decreases |text|
  {
    var n := FirstCut(START, text, delimiters);
    var left, right := text[..n], text[n..];
    assert text == left + right;
    FirstCutCuts(START, text, delimiters);
    SplitFromStep(START, left, right, delimiters);
    SplitStep(left, right, delimiters);
    if right != "" {
      AfterCut(text, n, delimiters);
      assert text[..n + 1] == left + [right[0]];
      CarriedIsFresh(right[1..], delimiters);
    }
  }

  /** Moving one character on without a cut. */
  lemma NoCut(s: Scan, left: string, ch: char, delimiters: seq<char>)
    requires FirstCut(s, left, delimiters) == |left| && !Cuts(Run(s, left), ch, delimiters)
    ensures FirstCut(s, left + [ch], delimiters) == |left| + 1
  {
    FirstCutSkips(s, left, [ch], delimiters);
    assert FirstCut(Observe(Run(s, left), ch), [ch][1..], delimiters) == 0;
  }

  predicate NoCutIn(s: Scan, text: string, delimiters: seq<char>) {
    FirstCut(s, text, delimiters) == |text|
  }

  /** What the scan has found so far and what it would find from `text` on is everything. */
  ghost predicate Accounts(
    whole: seq<string>, parts: seq<string>, s: Scan, text: string, delimiters: seq<char>)
  {
    whole == parts + SplitFrom(s, text, delimiters)
  }

  lemma StepPast(s: Scan, here: string, ch: char, delimiters: seq<char>)
    requires NoCutIn(s, here, delimiters)
    ensures Run(s, here + [ch]) == Observe(Run(s, here), ch)
    ensures !Cuts(Run(s, here), ch, delimiters) ==> NoCutIn(s, here + [ch], delimiters)
  {
    RunSplit(s, here, [ch]);
    assert Run(Run(s, here), [ch]) == Observe(Run(s, here), ch);
    if !Cuts(Run(s, here), ch, delimiters) {
      NoCut(s, here, ch, delimiters);
    }
  }

  lemma ConcatAssociates(a: seq<string>, b: seq<string>, c: seq<string>)
    ensures a + (b + c) == a + b + c
  {
  }

  lemma StepCut(
    whole: seq<string>, parts: seq<string>, s: Scan, here: string, behind: string, delimiters: seq<char>)
    requires NoCutIn(s, here, delimiters) && behind != "" && Cuts(Run(s, here), behind[0], delimiters)
    requires Accounts(whole, parts, s, here + behind, delimiters)
    ensures Accounts(whole, parts + Keep(here), Run(s, here + [behind[0]]), behind[1..], delimiters)
  {
    SplitFromStep(s, here, behind, delimiters);
    ConcatAssociates(parts, Keep(here), SplitFrom(Run(s, here + [behind[0]]), behind[1..], delimiters));
  }

  lemma StepEnd(whole: seq<string>, parts: seq<string>, s: Scan, tail: string, delimiters: seq<char>)
    requires NoCutIn(s, tail, delimiters) && Accounts(whole, parts, s, tail, delimiters)
    ensures whole == parts + Keep(tail)
  {
    assert tail == tail + "";
    SplitFromStep(s, tail, "", delimiters);
  }

  /** What the scan knows at `index`, the current part having begun at `start`. */
  ghost predicate ScanAt(
    whole: seq<string>, parts: seq<string>, since: Scan, now: Scan, input: string, start: nat, index: nat,
    delimiters: seq<char>)
  {
    && start <= index <= |input|
    && NoCutIn(since, input[start..index], delimiters)
    && Accounts(whole, parts, since, input[start..], delimiters)
    && now == Run(since, input[start..index])
  }

  lemma ScanPasses(
    whole: seq<string>, parts: seq<string>, since: Scan, now: Scan, input: string, start: nat, index: nat,
    delimiters: seq<char>)
    requires index < |input| && ScanAt(whole, parts, since, now, input, start, index, delimiters)
    requires !Cuts(now, input[index], delimiters)
    ensures ScanAt(whole, parts, since, Observe(now, input[index]), input, start, index + 1, delimiters)
  {
    StepPast(since, input[start..index], input[index], delimiters);
    assert input[start..index + 1] == input[start..index] + [input[index]];
  }

  lemma ScanCuts(
    whole: seq<string>, parts: seq<string>, since: Scan, now: Scan, input: string, start: nat, index: nat,
    delimiters: seq<char>)
    requires index < |input| && ScanAt(whole, parts, since, now, input, start, index, delimiters)
    requires Cuts(now, input[index], delimiters)
    ensures var next := Observe(now, input[index]);
      ScanAt(whole, parts + Keep(input[start..index]), next, next, input, index + 1, index + 1, delimiters)
  {
    var here, behind := input[start..index], input[index..];
    StepPast(since, here, input[index], delimiters);
    assert input[start..] == here + behind;
    StepCut(whole, parts, since, here, behind, delimiters);
    assert behind[1..] == input[index + 1..];
    assert input[index + 1..index + 1] == "";
  }

  lemma ScanEnds(
    whole: seq<string>, parts: seq<string>, since: Scan, now: Scan, input: string, start: nat,
    delimiters: seq<char>)
    requires ScanAt(whole, parts, since, now, input, start, |input|, delimiters)
    ensures whole == parts + Keep(input[start..])
  {
    assert input[start..] == input[start..|input|];
    StepEnd(whole, parts, since, input[start..], delimiters);
  }

  lemma ScanStarts(input: string, delimiters: seq<char>)
    ensures ScanAt(SplitFrom(START, input, delimiters), [], START, START, input, 0, 0, delimiters)
  {
    assert input[0..] == input && input[0..0] == "";
  }

  /** `split_top_level_multi`. */
  method SplitTopLevelMulti(input: string, delimiters: seq<char>) returns (parts: seq<string>)
    ensures parts == SplitFrom(START, input, delimiters)
    ensures Neutral(delimiters) ==> parts == Split(input, delimiters)
  {
    var state := new ScanState();
    var start := 0;
    parts := [];
    ghost var since, whole := START, SplitFrom(START, input, delimiters);
    ScanStarts(input, delimiters);
    for index := 0 to |input|
      invariant state.Valid() && fresh(state)
      invariant ScanAt(whole, parts, since, state.State(), input, start, index, delimiters)
    {
      var ch := input[index];
      if state.stringDelim.None? && state.brace == 0 && state.bracket == 0
         && state.paren == 0 && state.angle == 0 && ch in delimiters {
        ScanCuts(whole, parts, since, state.State(), input, start, index, delimiters);
        since := Observe(state.State(), ch);
        parts := parts + Keep(input[start..index]);
        start := index + 1;
      } else {
        ScanPasses(whole, parts, since, state.State(), input, start, index, delimiters);
      }
      state.ObserveChar(ch);
    }
    ScanEnds(whole, parts, since, state.State(), input, start, delimiters);
    parts := parts + Keep(input[start..]);
    if Neutral(delimiters) {
      CarriedIsFresh(input, delimiters);
    }
  }

  // ---------------------------------------------------------------------------------------
  // What the parts are like
  // ---------------------------------------------------------------------------------------

  /** A part: trimmed, not empty, and the scanner finds no cut in it. */
  predicate IsPart(part: string, delimiters: seq<char>) {
    part != "" && Trim(part) == part && FirstCut(START, part, delimiters) == |part|
  }

  /** Parts of which all but the last leave the scanner where it started. */
  predicate ArePartsOf(parts: seq<string>, delimiters: seq<char>) {
    parts != [] ==>
      && IsPart(parts[0], delimiters)
      && (|parts| > 1 ==> Run(START, parts[0]) == START)
      && ArePartsOf(parts[1..], delimiters)
  }

  /** `picked` keeps some of `parts`, in their order. */
  predicate Subsequence(picked: seq<string>, parts: seq<string>) {
    picked == []
    || (parts != [] && ((picked[0] == parts[0] && Subsequence(picked[1..], parts[1..]))
                        || Subsequence(picked, parts[1..])))
  }

  lemma {:induction false} PickedParts(picked: seq<string>, parts: seq<string>, delimiters: seq<char>)
    requires Subsequence(picked, parts) && ArePartsOf(parts, delimiters)
    ensures ArePartsOf(picked, delimiters)
    decreases parts
  {
    if picked != [] {
      if picked[0] == parts[0] && Subsequence(picked[1..], parts[1..]) {
        PickedParts(picked[1..], parts[1..], delimiters);
      } else {
        PickedParts(picked, parts[1..], delimiters);
      }
    }
  }

  lemma {:induction false} SpaceKeepsStart(spaces: string, delimiters: seq<char>)
    requires AllSpace(spaces) && Neutral(delimiters)
    ensures Run(START, spaces) == START
    ensures FirstCut(START, spaces, delimiters) == |spaces|
  {
    if spaces != "" {
      SpaceKeepsStart(spaces[1..], delimiters);
    }
  }

  lemma SkipSpace(spaces: string, text: string, delimiters: seq<char>)
    requires AllSpace(spaces) && Neutral(delimiters)
    ensures FirstCut(START, spaces + text, delimiters) == |spaces| + FirstCut(START, text, delimiters)
    ensures Run(START, spaces + text) == Run(START, text)
  {
    SpaceKeepsStart(spaces, delimiters);
    FirstCutSkips(START, spaces, text, delimiters);
    RunSplit(START, spaces, text);
  }

  lemma {:induction false} TrimStartSplits(s: string)
    ensures |TrimStart(s)| <= |s| && s == s[..|s| - |TrimStart(s)|] + TrimStart(s)
    ensures AllSpace(s[..|s| - |TrimStart(s)|])
    ensures TrimStart(s) != "" ==> !IsSpace(TrimStart(s)[0])
  {
    if s != "" && IsSpace(s[0]) {
      TrimStartSplits(s[1..]);
      assert s[..|s| - |TrimStart(s)|] == [s[0]] + s[1..][..|s| - 1 - |TrimStart(s)|];
    }
  }

  lemma {:induction false} TrimEndSplits(s: string)
    ensures |TrimEnd(s)| <= |s| && s == TrimEnd(s) + s[|TrimEnd(s)|..]
    ensures AllSpace(s[|TrimEnd(s)|..])
    ensures TrimEnd(s) != "" ==> !IsSpace(TrimEnd(s)[|TrimEnd(s)| - 1])
  {
    if s != "" && IsSpace(s[|s| - 1]) {
      TrimEndSplits(s[..|s| - 1]);
      assert s[|TrimEnd(s)|..] == s[..|s| - 1][|TrimEnd(s)|..] + [s[|s| - 1]];
    }
  }

  /** Trimming takes white space off both ends, and nothing else. */
  lemma TrimSplits(s: string) returns (lead: string, trail: string)
    ensures s == lead + Trim(s) + trail && AllSpace(lead) && AllSpace(trail)
    ensures Trim(s) != "" ==> !IsSpace(Trim(s)[0]) && !IsSpace(Trim(s)[|Trim(s)| - 1])
  {
    var t := TrimStart(s);
    TrimStartSplits(s);
    TrimEndSplits(t);
    lead, trail := s[..|s| - |t|], t[|TrimEnd(t)|..];
    assert s == lead + (Trim(s) + trail);
    if Trim(s) != "" {
      assert Trim(s)[0] == t[0];
    }
  }

  lemma {:induction false} TrimStartOf(lead: string, core: string)
    requires AllSpace(lead) && (core != "" ==> !IsSpace(core[0]))
    ensures TrimStart(lead + core) == core
  {
    if lead == "" {
      assert lead + core == core;
    } else {
      assert (lead + core)[1..] == lead[1..] + core;
      TrimStartOf(lead[1..], core);
    }
  }

  lemma {:induction false} TrimEndOf(core: string, trail: string)
    requires AllSpace(trail) && (core != "" ==> !IsSpace(core[|core| - 1]))
    ensures TrimEnd(core + trail) == core
  {
    if trail == "" {
      assert core + trail == core;
    } else {
      assert (core + trail)[..|core + trail| - 1] == core + trail[..|trail| - 1];
      TrimEndOf(core, trail[..|trail| - 1]);
    }
  }

  lemma TrimOf(lead: string, core: string, trail: string)
    requires AllSpace(lead) && AllSpace(trail)
    requires core != "" && !IsSpace(core[0]) && !IsSpace(core[|core| - 1])
    ensures Trim(lead + core + trail) == core
  {
    assert lead + core + trail == lead + (core + trail);
    TrimStartOf(lead, core + trail);
    TrimEndOf(core, trail);
  }

  lemma TrimVisible(core: string)
    requires core != "" && !IsSpace(core[0]) && !IsSpace(core[|core| - 1])
    ensures Trim(core) == core
  {
  }

  /** A trimmed text starts and ends with something visible. */
  lemma TrimmedEnds(part: string)
    requires part != "" && Trim(part) == part
    ensures !IsSpace(part[0]) && !IsSpace(part[|part| - 1])
  {
    var lead, trail := TrimSplits(part);
  }

  /** White space at the end of a closed text does not matter to the scanner. */
  lemma {:induction false} RunBeforeSpace(core: string, trail: string)
    requires AllSpace(trail) && Run(START, core + trail) == START
    ensures Run(START, core) == START
    decreases |trail|
  {
    if trail == "" {
      assert core + trail == core;
    } else {
      var last := trail[|trail| - 1];
      var before := core + trail[..|trail| - 1];
      assert core + trail == before + [last];
      RunSplit(START, before, [last]);
      var s := Run(START, before);
      assert Run(s, [last]) == Observe(s, last);
      RunReachable(START, before);
      assert s == START;
      RunBeforeSpace(core, trail[..|trail| - 1]);
    }
  }

  /** What is kept of a piece without cuts is a part. */
  lemma KeptIsPart(piece: string, delimiters: seq<char>)
    requires Neutral(delimiters) && FirstCut(START, piece, delimiters) == |piece|
    requires Trim(piece) != ""
    ensures IsPart(Trim(piece), delimiters)
    ensures Run(START, piece) == START ==> Run(START, Trim(piece)) == START
  {
    var lead, trail := TrimSplits(piece);
    CoreIsPart(lead, Trim(piece), trail, delimiters);
  }

  lemma CoreIsPart(lead: string, core: string, trail: string, delimiters: seq<char>)
    requires Neutral(delimiters) && AllSpace(lead) && AllSpace(trail)
    requires core != "" && !IsSpace(core[0]) && !IsSpace(core[|core| - 1])
    requires FirstCut(START, lead + core + trail, delimiters) == |lead + core + trail|
    ensures IsPart(core, delimiters)
    ensures Run(START, lead + core + trail) == START ==> Run(START, core) == START
  {
    TrimVisible(core);
    assert lead + core + trail == lead + (core + trail);
    SkipSpace(lead, core + trail, delimiters);
    FirstCutPrefix(START, core, trail, delimiters);
    if Run(START, lead + core + trail) == START {
      RunBeforeSpace(core, trail);
    }
  }

  lemma {:induction false} SplitGivesParts(text: string, delimiters: seq<char>)
    requires Neutral(delimiters)
    ensures ArePartsOf(Split(text, delimiters), delimiters)
    decreases |text|
  {
    var n := FirstCut(START, text, delimiters);
    FirstCutCuts(START, text, delimiters);
    if Trim(text[..n]) != "" {
      KeptIsPart(text[..n], delimiters);
    }
    if n < |text| {
      AfterCut(text, n, delimiters);
      SplitGivesParts(text[n + 1..], delimiters);
      var rest := Split(text[n + 1..], delimiters);
      assert (Keep(text[..n]) + rest)[|Keep(text[..n])|..] == rest;
    }
  }

  // ---------------------------------------------------------------------------------------
  // Joining and splitting again
  // ---------------------------------------------------------------------------------------

  /** A separator that the splitter reads as one cut: a delimiter padded with white space. */
  predicate Padded(separator: string, delimiters: seq<char>) {
    exists i | 0 <= i < |separator| ::
      separator[i] in delimiters && AllSpace(separator[..i]) && AllSpace(separator[i + 1..])
  }

  lemma {:induction false} LeadingSpace(spaces: string, text: string, whole: string, delimiters: seq<char>)
    requires AllSpace(spaces) && Neutral(delimiters) && whole == spaces + text
    ensures Split(whole, delimiters) == Split(text, delimiters)
  {
    if spaces == "" {
      assert whole == text;
    } else {
      assert whole[0] == spaces[0] && whole[1..] == spaces[1..] + text;
      OneSpace(whole, delimiters);
      LeadingSpace(spaces[1..], text, whole[1..], delimiters);
    }
  }

  lemma OneSpace(text: string, delimiters: seq<char>)
    requires text != "" && IsSpace(text[0]) && Neutral(delimiters)
    ensures Split(text, delimiters) == Split(text[1..], delimiters)
  {
    var rest := text[1..];
    var n := FirstCut(START, rest, delimiters);
    assert FirstCut(START, text, delimiters) == n + 1 by {
      assert Observe(START, text[0]) == START;
    }
    OneSpaceKept(text, n);
    OneSpaceBehind(text, n, delimiters);
  }

  lemma OneSpaceBehind(text: string, n: nat, delimiters: seq<char>)
    requires n < |text|
    ensures SplitBehind(text, n + 1, delimiters) == SplitBehind(text[1..], n, delimiters)
  {
    if n + 1 < |text| {
      assert text[n + 1 + 1..] == text[1..][n + 1..];
    }
  }

  lemma OneSpaceKept(text: string, n: nat)
    requires n < |text| && IsSpace(text[0])
    ensures Keep(text[..n + 1]) == Keep(text[1..][..n])
  {
    assert text[..n + 1][1..] == text[1..][..n];
  }

  /** Splitting after a closed part and a padded delimiter gives the part, then the rest. */
  lemma SplitAfterPart(part: string, separator: string, rest: string, delimiters: seq<char>)
    requires Neutral(delimiters) && Padded(separator, delimiters)
    requires IsPart(part, delimiters) && Run(START, part) == START
    ensures Split(part + separator + rest, delimiters) == [part] + Split(rest, delimiters)
  {
    var i :| 0 <= i < |separator|
      && separator[i] in delimiters && AllSpace(separator[..i]) && AllSpace(separator[i + 1..]);
    var before, after := separator[..i], separator[i + 1..];
    Regroup(part, separator, rest, i);
    SplitAfterPadding(part, before, separator[i], after + rest, delimiters);
    LeadingSpace(after, rest, after + rest, delimiters);
  }

  lemma Regroup(part: string, separator: string, rest: string, i: nat)
    requires i < |separator|
    ensures part + separator + rest
         == part + separator[..i] + ([separator[i]] + (separator[i + 1..] + rest))
  {
    assert separator == separator[..i] + [separator[i]] + separator[i + 1..];
  }

  lemma SplitAfterPadding(part: string, before: string, d: char, behind: string, delimiters: seq<char>)
    requires Neutral(delimiters) && d in delimiters && AllSpace(before)
    requires IsPart(part, delimiters) && Run(START, part) == START
    ensures Split(part + before + ([d] + behind), delimiters) == [part] + Split(behind, delimiters)
  {
    KeptPart(part, before, delimiters);
    SplitStep(part + before, [d] + behind, delimiters);
    assert ([d] + behind)[1..] == behind;
  }

  lemma KeptPart(part: string, spaces: string, delimiters: seq<char>)
    requires Neutral(delimiters) && AllSpace(spaces)
    requires IsPart(part, delimiters) && Run(START, part) == START
    ensures Keep(part + spaces) == [part]
    ensures FirstCut(START, part + spaces, delimiters) == |part + spaces|
    ensures Run(START, part + spaces) == START
  {
    SpaceKeepsStart(spaces, delimiters);
    FirstCutSkips(START, part, spaces, delimiters);
    RunSplit(START, part, spaces);
    TrimmedEnds(part);
    TrimOf("", part, spaces);
    assert "" + part + spaces == part + spaces;
  }

  lemma {:induction false} JoinedPartsSplit(parts: seq<string>, separator: string, delimiters: seq<char>)
    requires Neutral(delimiters) && Padded(separator, delimiters) && ArePartsOf(parts, delimiters)
    ensures Split(Join(parts, separator), delimiters) == parts
  {
    if |parts| == 1 {
      assert parts[0][..|parts[0]|] == parts[0];
      assert parts == [parts[0]];
    } else if |parts| > 1 {
      SplitAfterPart(parts[0], separator, Join(parts[1..], separator), delimiters);
      JoinedPartsSplit(parts[1..], separator, delimiters);
      assert parts == [parts[0]] + parts[1..];
    }
  }

  /**
   * Any selection of the parts of any text, joined and split again, is that selection: the
   * text may be unbalanced, cut short in a string or full of stray closing brackets.
   */
  lemma ResplitStable(text: string, picked: seq<string>, separator: string, delimiters: seq<char>)
    requires Neutral(delimiters) && Padded(separator, delimiters)
    requires Subsequence(picked, Split(text, delimiters))
    ensures Split(Join(picked, separator), delimiters) == picked
  {
    SplitGivesParts(text, delimiters);
    PickedParts(picked, Split(text, delimiters), delimiters);
    JoinedPartsSplit(picked, separator, delimiters);
  }

  // ---------------------------------------------------------------------------------------
  // The filters
  // ---------------------------------------------------------------------------------------

  function Filter(keep: string -> bool, parts: seq<string>): seq<string> {
    if parts == [] then []
    else (if keep(parts[0]) then [parts[0]] else []) + Filter(keep, parts[1..])
  }

  lemma {:induction false} FilterPicks(keep: string -> bool, parts: seq<string>)
    ensures Subsequence(Filter(keep, parts), parts)
    ensures Filter(keep, Filter(keep, parts)) == Filter(keep, parts)
  {
    if parts != [] {
      FilterPicks(keep, parts[1..]);
      var rest := Filter(keep, parts[1..]);
      if keep(parts[0]) {
        assert ([parts[0]] + rest)[1..] == rest;
      } else {
        assert [] + rest == rest;
      }
    }
  }

  const ARM_DELIMITERS: seq<char> := ['|']
  const ARM_SEPARATOR := " | "
  const FIELD_DELIMITERS: seq<char> := [',', ';']
  const FIELD_SEPARATOR := ", "

  lemma Separators()
    ensures Neutral(ARM_DELIMITERS) && Padded(ARM_SEPARATOR, ARM_DELIMITERS)
    ensures Neutral(FIELD_DELIMITERS) && Padded(FIELD_SEPARATOR, FIELD_DELIMITERS)
  {
    assert ARM_SEPARATOR[1] in ARM_DELIMITERS
      && AllSpace(ARM_SEPARATOR[..1]) && AllSpace(ARM_SEPARATOR[1 + 1..]);
    assert FIELD_SEPARATOR[0] in FIELD_DELIMITERS
      && AllSpace(FIELD_SEPARATOR[..0]) && AllSpace(FIELD_SEPARATOR[0 + 1..]);
  }

  function FilterArms(body: string, keep: string -> bool): string {
    Join(Filter(keep, Split(body, ARM_DELIMITERS)), ARM_SEPARATOR)
  }

  function FilterFields(body: string, keep: string -> bool): string {
    Join(Filter(keep, Split(body, FIELD_DELIMITERS)), FIELD_SEPARATOR)
  }

  /** Filtering union arms leaves exactly the wanted arms, and a second run changes nothing. */
  lemma FilterArmsExact(body: string, keep: string -> bool)
    ensures Split(FilterArms(body, keep), ARM_DELIMITERS) == Filter(keep, Split(body, ARM_DELIMITERS))
    ensures FilterArms(FilterArms(body, keep), keep) == FilterArms(body, keep)
  {
    Separators();
    FilterPicks(keep, Split(body, ARM_DELIMITERS));
    ResplitStable(body, Filter(keep, Split(body, ARM_DELIMITERS)), ARM_SEPARATOR, ARM_DELIMITERS);
  }

  /** Filtering fields leaves exactly the wanted fields, and a second run changes nothing. */
  lemma FilterFieldsExact(body: string, keep: string -> bool)
    ensures Split(FilterFields(body, keep), FIELD_DELIMITERS) == Filter(keep, Split(body, FIELD_DELIMITERS))
    ensures FilterFields(FilterFields(body, keep), keep) == FilterFields(body, keep)
  {
    Separators();
    FilterPicks(keep, Split(body, FIELD_DELIMITERS));
    ResplitStable(body, Filter(keep, Split(body, FIELD_DELIMITERS)), FIELD_SEPARATOR, FIELD_DELIMITERS);
  }

  datatype TypeAlias = TypeAlias(prefix: string, body: string, suffix: string)

  function FindFirst(s: string, c: char): Option<nat> {
    if s == "" then None
    else if s[0] == c then Some(0)
    else match FindFirst(s[1..], c)
         case Some(i) => Some(i + 1)
         case None => None
  }

  function FindLast(s: string, c: char): Option<nat> {
    if s == "" then None
    else if s[|s| - 1] == c then Some(|s| - 1)
    else FindLast(s[..|s| - 1], c)
  }

  lemma {:induction false} FindFirstIs(s: string, c: char, i: nat)
    requires i < |s| && s[i] == c && forall k | 0 <= k < i :: s[k] != c
    ensures FindFirst(s, c) == Some(i)
  {
    if i > 0 {
      FindFirstIs(s[1..], c, i - 1);
    }
  }

  lemma {:induction false} FindFirstFinds(s: string, c: char)
    ensures var r := FindFirst(s, c);
      r.Some? ==> r.value < |s| && s[r.value] == c && forall k | 0 <= k < r.value :: s[k] != c
  {
    if s != "" {
      FindFirstFinds(s[1..], c);
      var r := FindFirst(s, c);
      if r.Some? {
        forall k | 0 <= k < r.value ensures s[k] != c {
          if k > 0 {
            assert s[k] == s[1..][k - 1];
          }
        }
      }
    }
  }

  lemma {:induction false} FindLastIs(s: string, c: char, i: nat)
    requires i < |s| && s[i] == c && forall k | i < k < |s| :: s[k] != c
    ensures FindLast(s, c) == Some(i)
  {
    if i < |s| - 1 {
      FindLastIs(s[..|s| - 1], c, i);
    }
  }

  lemma {:induction false} FindLastFinds(s: string, c: char)
    ensures var r := FindLast(s, c);
      r.Some? ==> r.value < |s| && s[r.value] == c && forall k | r.value < k < |s| :: s[k] != c
  {
    if s != "" {
      FindLastFinds(s[..|s| - 1], c);
      var r := FindLast(s, c);
      if r.Some? {
        forall k | r.value < k < |s| ensures s[k] != c {
          if k < |s| - 1 {
            assert s[k] == s[..|s| - 1][k];
          }
        }
      }
    }
  }

  /** `split_type_alias`: up to the first `=`, the body, and from the last `;`. */
  function SplitTypeAlias(content: string): Option<TypeAlias>
  {
    FindFirstFinds(content, '=');
    FindLastFinds(content, ';');
    match (FindFirst(content, '='), FindLast(content, ';'))
    case (Some(eq), Some(semi)) =>
      if semi <= eq then None
      else Some(TypeAlias(content[..eq + 1], content[eq + 1..semi], content[semi..]))
    case _ => None
  }

  lemma FindFirstInPrefix(prefix: string, rest: string, c: char)
    requires prefix != "" && prefix[|prefix| - 1] == c && forall k | 0 <= k < |prefix| - 1 :: prefix[k] != c
    ensures FindFirst(prefix + rest, c) == Some(|prefix| - 1)
  {
    FindFirstIs(prefix + rest, c, |prefix| - 1);
  }

  lemma FindLastInSuffix(head: string, suffix: string, c: char)
    requires suffix != "" && suffix[0] == c && forall k | 0 < k < |suffix| :: suffix[k] != c
    ensures FindLast(head + suffix, c) == Some(|head|)
  {
    var all := head + suffix;
    assert forall k | |head| < k < |all| :: all[k] == suffix[k - |head|];
    FindLastIs(all, c, |head|);
  }

  lemma AliasOf(prefix: string, body: string, suffix: string)
    requires prefix != "" && prefix[|prefix| - 1] == '='
    requires forall k | 0 <= k < |prefix| - 1 :: prefix[k] != '='
    requires suffix != "" && suffix[0] == ';' && forall k | 0 < k < |suffix| :: suffix[k] != ';'
    ensures SplitTypeAlias(prefix + body + suffix) == Some(TypeAlias(prefix, body, suffix))
  {
    var text := prefix + body + suffix;
    assert text == prefix + (body + suffix);
    FindFirstInPrefix(prefix, body + suffix, '=');
    FindLastInSuffix(prefix + body, suffix, ';');
    assert text[..|prefix|] == prefix;
    assert text[|prefix|..|prefix + body|] == body;
    assert text[|prefix + body|..] == suffix;
  }

  /** Any body put between the same prefix and suffix is found there again. */
  lemma SplitTypeAliasAgain(content: string, body: string)
    requires SplitTypeAlias(content).Some?
    ensures var t := SplitTypeAlias(content).value;
      && t.prefix + t.body + t.suffix == content
      && SplitTypeAlias(t.prefix + body + t.suffix) == Some(t.(body := body))
  {
    var t := SplitTypeAlias(content).value;
    AliasEnds(content);
    AliasOf(t.prefix, body, t.suffix);
  }

  lemma AliasEnds(content: string)
    requires SplitTypeAlias(content).Some?
    ensures var t := SplitTypeAlias(content).value;
      && t.prefix + t.body + t.suffix == content
      && t.prefix != "" && t.prefix[|t.prefix| - 1] == '='
      && (forall k | 0 <= k < |t.prefix| - 1 :: t.prefix[k] != '=')
      && t.suffix != "" && t.suffix[0] == ';' && forall k | 0 < k < |t.suffix| :: t.suffix[k] != ';'
  {
    FindFirstFinds(content, '=');
    FindLastFinds(content, ';');
    var eq, semi := FindFirst(content, '=').value, FindLast(content, ';').value;
    var t := SplitTypeAlias(content).value;
    assert t == TypeAlias(content[..eq + 1], content[eq + 1..semi], content[semi..]);
    forall k | 0 < k < |t.suffix| ensures t.suffix[k] != ';' {
      assert t.suffix[k] == content[semi + k];
    }
  }

  /** `filter_client_request_ts_contents`, before unused imports are pruned. */
  function FilterRequestContents(content: string, keep: string -> bool): string {
    match SplitTypeAlias(content)
    case None => content
    case Some(t) => t.prefix + FilterArms(t.body, keep) + t.suffix
  }

  /**
   * Filtering a file touches only the type body, leaves exactly the wanted arms there, and is
   * idempotent on every text.
   */
  lemma FilterRequestContentsExact(content: string, keep: string -> bool)
    ensures SplitTypeAlias(content).None? ==> FilterRequestContents(content, keep) == content
    ensures SplitTypeAlias(content).Some? ==>
      var t := SplitTypeAlias(content).value;
      var u := SplitTypeAlias(FilterRequestContents(content, keep));
      && u.Some? && u.value.prefix == t.prefix && u.value.suffix == t.suffix
      && Split(u.value.body, ARM_DELIMITERS) == Filter(keep, Split(t.body, ARM_DELIMITERS))
    ensures FilterRequestContents(FilterRequestContents(content, keep), keep)
         == FilterRequestContents(content, keep)
  {
    if SplitTypeAlias(content).Some? {
      var t := SplitTypeAlias(content).value;
      SplitTypeAliasAgain(content, FilterArms(t.body, keep));
      FilterArmsExact(t.body, keep);
    }
  }
}
