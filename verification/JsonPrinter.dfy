/**
 * The compact JSON text of a value (section 2 of RFC 8259, escapes of section 7), the form
 * that `canonicalize_json` uses to break ties.  Every function takes the text that follows,
 * so that two texts can be peeled from the front together.
 */
module JsonPrinter {
  import opened Json

  function Print(v: Value): string {
    PrintTo(v, "")
  }

  function PrintTo(v: Value, rest: string): string {
    match v
    case Null => "null" + rest
    case Bool(b) => (if b then "true" else "false") + rest
    case Number(n) => IntText(n) + rest
    case String(s) => "\"" + EscapedTo(s, rest)
    case Array(items) => "[" + ItemsTo(items, true, rest)
    case Object(entries) => "{" + EntriesTo(entries, true, rest)
  }

  function ItemsTo(items: seq<Value>, first: bool, rest: string): string {
    if items == [] then "]" + rest
    else (if first then "" else ",") + PrintTo(items[0], ItemsTo(items[1..], false, rest))
  }

  function EntriesTo(entries: seq<Entry>, first: bool, rest: string): string {
    if entries == [] then "}" + rest
    else
      (if first then "\"" else ",\"")
      + EscapedTo(entries[0].key, ":" + PrintTo(entries[0].value, EntriesTo(entries[1..], false, rest)))
  }

  /** The characters of a string, escaped, and the closing quote. */
  function EscapedTo(s: string, rest: string): string {
    if s == "" then "\"" + rest else Escape(s[0]) + EscapedTo(s[1..], rest)
  }

  function Escape(c: char): string {
    if c == '"' then "\\\""
    else if c == '\\' then "\\\\"
    else if c as int == 0x08 then "\\b"
    else if c as int == 0x09 then "\\t"
    else if c as int == 0x0a then "\\n"
    else if c as int == 0x0c then "\\f"
    else if c as int == 0x0d then "\\r"
    else if c as int < 0x20 then "\\u00" + [Hex(c as int / 16), Hex(c as int % 16)]
    else [c]
  }

  /**
   * The short form is for the quote, the backslash and five control characters (here by code), the
   * long one for the other control characters, and everything else stands for itself.
   */
  lemma EscapeForms(c: char)
    ensures |Escape(c)| == 2 && Escape(c)[0] == '\\' <==> c as int in {8, 9, 10, 12, 13, 34, 92}
    ensures |Escape(c)| == 6 && Escape(c)[..4] == "\\u00" <==> c as int < 32 && c as int !in {8, 9, 10, 12, 13}
    ensures Escape(c) == [c] <==> c as int >= 32 && c as int !in {34, 92}
  {
    if |Escape(c)| > 2 {
      assert Escape(c)[..4] == "\\u00";
    }
  }

  function Hex(d: int): char
    requires 0 <= d < 16
  {
    "0123456789abcdef"[d]
  }

  function IntText(n: int): string {
    if n < 0 then "-" + Digits(-n) else Digits(n)
  }

  function Digits(n: nat): string {
    if n < 10 then [Digit(n)] else Digits(n / 10) + [Digit(n % 10)]
  }

  function Digit(d: int): char
    requires 0 <= d < 10
  {
    "0123456789"[d]
  }

  predicate IsDigit(c: char) {
    '0' <= c <= '9'
  }

  /** Text that cannot extend a number. */
  predicate Ends(rest: string) {
    rest == "" || (!IsDigit(rest[0]))
  }

  lemma {:induction false} DigitsAreDigits(n: nat)
    ensures |Digits(n)| > 0
    ensures forall i | 0 <= i < |Digits(n)| :: IsDigit(Digits(n)[i])
  {
    if n >= 10 {
      DigitsAreDigits(n / 10);
    }
  }

  lemma DigitsLast(n: nat)
    ensures |Digits(n)| > 0 && Digits(n)[|Digits(n)| - 1] == Digit(n % 10)
    ensures |Digits(n)| == 1 <==> n < 10
    ensures n >= 10 ==> Digits(n)[..|Digits(n)| - 1] == Digits(n / 10)
  {
    DigitsAreDigits(n / 10);
  }

  lemma DigitInjective(c: int, d: int)
    requires 0 <= c < 10 && 0 <= d < 10 && Digit(c) == Digit(d)
    ensures c == d
  {
  }

  lemma {:induction false} DigitsInjective(m: nat, n: nat)
    requires Digits(m) == Digits(n)
    ensures m == n
  {
    DigitsLast(m);
    DigitsLast(n);
    DigitInjective(m % 10, n % 10);
    if m >= 10 {
      DigitsInjective(m / 10, n / 10);
    }
  }

  /** The digits at the front of a text end where they stop. */
  lemma RunNotShorter(u: string, v: string, s: string, t: string)
    requires u + s == v + t && Ends(s)
    requires forall i | 0 <= i < |v| :: IsDigit(v[i])
    ensures |v| <= |u|
  {
    var w := v + t;
    assert forall i | 0 <= i < |v| :: w[i] == v[i];
    assert s == (u + s)[|u|..] == w[|u|..];
  }

  /** Two runs of digits followed by text that ends them are the same run. */
  lemma SameRun(u: string, v: string, s: string, t: string)
    requires u + s == v + t && Ends(s) && Ends(t)
    requires forall i | 0 <= i < |u| :: IsDigit(u[i])
    requires forall i | 0 <= i < |v| :: IsDigit(v[i])
    ensures u == v && s == t
  {
    RunNotShorter(u, v, s, t);
    RunNotShorter(v, u, t, s);
    assert u == (u + s)[..|u|] && v == (v + t)[..|v|];
    assert s == (u + s)[|u|..] && t == (v + t)[|v|..];
  }

  function Magnitude(n: int): nat {
    if n < 0 then -n else n
  }

  lemma IntTextFirst(n: int, s: string)
    ensures |IntText(n)| > 0
    ensures (IntText(n) + s)[0] == IntText(n)[0]
    ensures n < 0 <==> IntText(n)[0] == '-'
    ensures n < 0 ==> (IntText(n) + s)[1..] == Digits(Magnitude(n)) + s
  {
    DigitsAreDigits(Magnitude(n));
    assert n >= 0 ==> IsDigit(IntText(n)[0]);
  }

  lemma IntTextInjective(m: int, n: int, s: string, t: string)
    requires IntText(m) + s == IntText(n) + t && Ends(s) && Ends(t)
    ensures m == n && s == t
  {
    IntTextFirst(m, s);
    IntTextFirst(n, t);
    DigitsAreDigits(Magnitude(m));
    DigitsAreDigits(Magnitude(n));
    SameRun(Digits(Magnitude(m)), Digits(Magnitude(n)), s, t);
    DigitsInjective(Magnitude(m), Magnitude(n));
  }

  function HexValue(c: char): int {
    if c <= '9' then c as int - '0' as int else c as int - 'a' as int + 10
  }

  /** The character that an escaped text begins with. */
  function FirstEscaped(text: string): int
    requires text != ""
  {
    if text[0] != '\\' || |text| < 2 then text[0] as int
    else match text[1]
         case 'b' => 0x08
         case 't' => 0x09
         case 'n' => 0x0a
         case 'f' => 0x0c
         case 'r' => 0x0d
         case 'u' => if |text| < 6 then 0 else 16 * HexValue(text[4]) + HexValue(text[5])
         case c => c as int
  }

  lemma HexBack(d: int)
    requires 0 <= d < 16
    ensures HexValue(Hex(d)) == d
  {
  }

  /** An escape can be read back from the front of a text. */
  lemma EscapeReadBack(c: char, rest: string)
    ensures Escape(c) + rest != "" && FirstEscaped(Escape(c) + rest) == c as int
  {
    var e := Escape(c);
    assert forall i | 0 <= i < |e| :: (e + rest)[i] == e[i];
    if |e| == 6 {
      HexBack(c as int / 16);
      HexBack(c as int % 16);
    }
  }

  lemma EscapeInjective(c: char, d: char, s: string, t: string)
    requires Escape(c) + s == Escape(d) + t
    ensures c == d && s == t
  {
    EscapeReadBack(c, s);
    EscapeReadBack(d, t);
    assert c as int == d as int;
    Peel(Escape(c), s, t);
  }

  lemma EscapedFirst(s: string, rest: string)
    ensures EscapedTo(s, rest) != ""
    ensures s == "" <==> EscapedTo(s, rest)[0] == '"'
  {
    if s != "" {
      assert EscapedTo(s, rest)[0] == Escape(s[0])[0];
    }
  }

  lemma {:induction false} EscapedInjective(a: string, b: string, s: string, t: string)
    requires EscapedTo(a, s) == EscapedTo(b, t)
    ensures a == b && s == t
  {
    EscapedFirst(a, s);
    EscapedFirst(b, t);
    if a == "" {
      Peel("\"", s, t);
    } else {
      EscapeInjective(a[0], b[0], EscapedTo(a[1..], s), EscapedTo(b[1..], t));
      EscapedInjective(a[1..], b[1..], s, t);
      assert a == [a[0]] + a[1..] && b == [b[0]] + b[1..];
    }
  }

  /** What the first character of a text says about the value. */
  lemma FirstChar(v: Value, rest: string)
    ensures PrintTo(v, rest) != ""
    ensures var c := PrintTo(v, rest)[0];
      match v
      case Null => c == 'n'
      case Bool(b) => c == if b then 't' else 'f'
      case Number(n) => c == '-' || IsDigit(c)
      case String(s) => c == '"'
      case Array(items) => c == '['
      case Object(entries) => c == '{'
  {
    if v.Number? {
      DigitsAreDigits(if v.n < 0 then -v.n else v.n);
      assert PrintTo(v, rest)[0] == IntText(v.n)[0];
    }
  }

  lemma Peel(prefix: string, s: string, t: string)
    requires prefix + s == prefix + t
    ensures s == t
  {
    assert s == (prefix + s)[|prefix|..] && t == (prefix + t)[|prefix|..];
  }

  /** A value can be read back from the front of its text: equal texts come from equal values. */
  lemma {:induction false} PrintToInjective(a: Value, b: Value, s: string, t: string)
    requires PrintTo(a, s) == PrintTo(b, t) && Ends(s) && Ends(t)
    ensures a == b && s == t
    decreases a
  {
    FirstChar(a, s);
    FirstChar(b, t);
    match a
    case Null => Peel("null", s, t);
    case Bool(x) => Peel(if x then "true" else "false", s, t);
    case Number(n) => IntTextInjective(n, b.n, s, t);
    case String(x) =>
      Peel("\"", EscapedTo(x, s), EscapedTo(b.s, t));
      EscapedInjective(x, b.s, s, t);
    case Array(items) =>
      Peel("[", ItemsTo(items, true, s), ItemsTo(b.items, true, t));
      ItemsInjective(items, b.items, true, s, t);
    case Object(entries) =>
      Peel("{", EntriesTo(entries, true, s), EntriesTo(b.entries, true, t));
      EntriesInjective(entries, b.entries, true, s, t);
  }

  lemma {:induction false} ItemsInjective(xs: seq<Value>, ys: seq<Value>, first: bool, s: string, t: string)
    requires ItemsTo(xs, first, s) == ItemsTo(ys, first, t)
    ensures xs == ys && s == t
    decreases xs
  {
    if xs == [] || ys == [] {
      if ys != [] {
        FirstChar(ys[0], ItemsTo(ys[1..], false, t));
      }
      if xs != [] {
        FirstChar(xs[0], ItemsTo(xs[1..], false, s));
      }
      assert ItemsTo(xs, first, s)[0] == ItemsTo(ys, first, t)[0];
      assert xs == [] && ys == [];
      Peel("]", s, t);
    } else {
      var u, v := ItemsTo(xs[1..], false, s), ItemsTo(ys[1..], false, t);
      Peel(if first then "" else ",", PrintTo(xs[0], u), PrintTo(ys[0], v));
      PrintToInjective(xs[0], ys[0], u, v);
      ItemsInjective(xs[1..], ys[1..], false, s, t);
      assert xs == [xs[0]] + xs[1..] && ys == [ys[0]] + ys[1..];
    }
  }

  lemma {:induction false} EntriesInjective(es: seq<Entry>, fs: seq<Entry>, first: bool, s: string, t: string)
    requires EntriesTo(es, first, s) == EntriesTo(fs, first, t)
    ensures es == fs && s == t
    decreases es
  {
    if es == [] || fs == [] {
      assert EntriesTo(es, first, s)[0] == EntriesTo(fs, first, t)[0];
      assert es == [] && fs == [];
      Peel("}", s, t);
    } else {
      var u, v := EntriesTo(es[1..], false, s), EntriesTo(fs[1..], false, t);
      var x, y := PrintTo(es[0].value, u), PrintTo(fs[0].value, v);
      Peel(if first then "\"" else ",\"", EscapedTo(es[0].key, ":" + x), EscapedTo(fs[0].key, ":" + y));
      EscapedInjective(es[0].key, fs[0].key, ":" + x, ":" + y);
      Peel(":", x, y);
      PrintToInjective(es[0].value, fs[0].value, u, v);
      EntriesInjective(es[1..], fs[1..], false, s, t);
      assert es == [es[0]] + es[1..] && fs == [fs[0]] + fs[1..];
    }
  }

  lemma PrintInjective(a: Value, b: Value)
    requires Print(a) == Print(b)
    ensures a == b
  {
    PrintToInjective(a, b, "", "");
  }

  // ---------------------------------------------------------------------------------------
  // What the text is
  // ---------------------------------------------------------------------------------------

  function Commas(texts: seq<string>): string {
    if texts == [] then "" else if |texts| == 1 then texts[0] else texts[0] + "," + Commas(texts[1..])
  }

  /** The characters of a string, escaped one by one. */
  function Escapes(s: string): string {
    if s == "" then "" else Escape(s[0]) + Escapes(s[1..])
  }

  function Quote(s: string): string {
    "\"" + Escapes(s) + "\""
  }

  function Prints(items: seq<Value>): seq<string> {
    seq(|items|, i requires 0 <= i < |items| => Print(items[i]))
  }

  function Members(entries: seq<Entry>): seq<string> {
    seq(|entries|, i requires 0 <= i < |entries| => Quote(entries[i].key) + ":" + Print(entries[i].value))
  }

  lemma {:induction false} EscapedIs(s: string, rest: string)
    ensures EscapedTo(s, rest) == Escapes(s) + "\"" + rest
  {
    if s != "" {
      EscapedIs(s[1..], rest);
      assert Escape(s[0]) + (Escapes(s[1..]) + "\"" + rest) == Escape(s[0]) + Escapes(s[1..]) + "\"" + rest;
    }
  }

  lemma {:induction false} PrintAppends(v: Value, rest: string)
    ensures PrintTo(v, rest) == Print(v) + rest
    decreases v, 1
  {
    match v
    case String(s) =>
      EscapedIs(s, rest);
      EscapedIs(s, "");
      StringAppends(s, rest);
    case Array(items) =>
      ItemsAre(items, true, rest);
      ItemsAre(items, true, "");
    case Object(entries) =>
      EntriesAre(entries, true, rest);
      EntriesAre(entries, true, "");
    case _ =>
  }

  lemma StringAppends(s: string, rest: string)
    ensures "\"" + (Escapes(s) + "\"" + rest) == "\"" + (Escapes(s) + "\"" + "") + rest
    ensures "\"" + (Escapes(s) + "\"" + "") == Quote(s)
  {
  }

  lemma Following(first: bool, text: string, texts: seq<string>, rest: string)
    ensures (if first then "" else ",") + (text + Continued(false, texts, rest))
         == Continued(first, [text] + texts, rest)
  {
    assert ([text] + texts)[1..] == texts;
    if texts == [] {
      assert [text] + texts == [text];
    }
  }

  /** Texts with commas between them, and in front of the first unless it is the first of all. */
  function Continued(first: bool, texts: seq<string>, rest: string): string {
    (if first || texts == [] then "" else ",") + (Commas(texts) + rest)
  }

  lemma {:induction false} ItemsAre(items: seq<Value>, first: bool, rest: string)
    ensures ItemsTo(items, first, rest) == Continued(first, Prints(items), "]" + rest)
    decreases items, 0
  {
    if items != [] {
      ItemsAre(items[1..], false, rest);
      PrintAppends(items[0], ItemsTo(items[1..], false, rest));
      assert Prints(items) == [Print(items[0])] + Prints(items[1..]);
      Following(first, Print(items[0]), Prints(items[1..]), "]" + rest);
    }
  }

  lemma {:induction false} EntriesAre(entries: seq<Entry>, first: bool, rest: string)
    ensures EntriesTo(entries, first, rest) == Continued(first, Members(entries), "}" + rest)
    decreases entries, 0
  {
    if entries != [] {
      var key, value, more := entries[0].key, entries[0].value, EntriesTo(entries[1..], false, rest);
      var member := Quote(key) + ":" + Print(value);
      EntriesAre(entries[1..], false, rest);
      PrintAppends(value, more);
      EscapedIs(key, ":" + PrintTo(value, more));
      MemberText(key, Print(value), more);
      assert Members(entries) == [member] + Members(entries[1..]);
      Following(first, member, Members(entries[1..]), "}" + rest);
    }
  }

  lemma MemberText(key: string, value: string, more: string)
    ensures "\"" + (Escapes(key) + "\"" + (":" + (value + more))) == Quote(key) + ":" + value + more
    ensures ",\"" + (Escapes(key) + "\"" + (":" + (value + more))) == "," + (Quote(key) + ":" + value + more)
  {
    assert ",\"" == "," + "\"";
  }

  /** The text of a value: section 2 of RFC 8259, without white space. */
  lemma PrintIs(v: Value)
    ensures match v
      case Null => Print(v) == "null"
      case Bool(b) => Print(v) == if b then "true" else "false"
      case Number(n) => Print(v) == IntText(n)
      case String(s) => Print(v) == Quote(s)
      case Array(items) => Print(v) == "[" + Commas(Prints(items)) + "]"
      case Object(entries) => Print(v) == "{" + Commas(Members(entries)) + "}"
  {
    match v
    case String(s) =>
      EscapedIs(s, "");
      StringAppends(s, "");
    case Array(items) =>
      ItemsAre(items, true, "");
      Enclosing("[", Commas(Prints(items)), "]");
    case Object(entries) =>
      EntriesAre(entries, true, "");
      Enclosing("{", Commas(Members(entries)), "}");
    case _ =>
      EmptyBehind(v);
  }

  lemma Enclosing(open: string, text: string, close: string)
    ensures open + ("" + (text + (close + ""))) == open + text + close
  {
  }

  lemma EmptyBehind(v: Value)
    ensures v.Number? ==> IntText(v.n) + "" == IntText(v.n)
    ensures "null" + "" == "null" && "true" + "" == "true" && "false" + "" == "false"
  {
  }
}
