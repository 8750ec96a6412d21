/** String comparison and path splitting, as the Rust standard library does them. */
module Strings {
  import opened Wrappers

  /** Lexicographic order on code points, which is the byte order of the UTF-8 encodings. */
  predicate LexLe(a: string, b: string) {
    if a == "" then true
    else if b == "" then false
    else a[0] < b[0] || (a[0] == b[0] && LexLe(a[1..], b[1..]))
  }

  lemma {:induction false} LexLeTotal(a: string, b: string)
    ensures LexLe(a, b) || LexLe(b, a)
    ensures LexLe(a, b) && LexLe(b, a) ==> a == b
  {
    if a != "" && b != "" {
      LexLeTotal(a[1..], b[1..]);
      if a[0] == b[0] && a[1..] == b[1..] {
        assert a == [a[0]] + a[1..] && b == [b[0]] + b[1..];
      }
    }
  }

  lemma {:induction false} LexLeTransitive(a: string, b: string, c: string)
    requires LexLe(a, b) && LexLe(b, c)
    ensures LexLe(a, c)
  {
    if a != "" && b != "" && c != "" && a[0] == b[0] && b[0] == c[0] {
      LexLeTransitive(a[1..], b[1..], c[1..]);
    }
  }

  /** `str::find`: where the pattern first occurs. */
  function FindText(s: string, pattern: string): Option<nat>
    decreases |s|
  {
    if pattern <= s then Some(0)
    else if s == "" then None
    else match FindText(s[1..], pattern)
         case Some(i) => Some(i + 1)
         case None => None
  }

  predicate OccursAt(s: string, pattern: string, i: int) {
    0 <= i <= |s| && pattern <= s[i..]
  }

  /** The first place where the pattern occurs, if it occurs anywhere. */
  lemma {:induction false} FindTextFinds(s: string, pattern: string)
    ensures match FindText(s, pattern)
      case Some(i) => OccursAt(s, pattern, i) && forall j | 0 <= j < i :: !OccursAt(s, pattern, j)
      case None => forall j :: !OccursAt(s, pattern, j)
    decreases |s|
  {
    assert s[0..] == s;
    if !(pattern <= s) && s != "" {
      FindTextFinds(s[1..], pattern);
      forall j | 0 < j <= |s| ensures OccursAt(s, pattern, j) <==> OccursAt(s[1..], pattern, j - 1) {
        assert s[j..] == s[1..][j - 1..];
      }
    }
  }

  lemma FindTextIs(s: string, pattern: string, i: nat)
    requires OccursAt(s, pattern, i) && forall j | 0 <= j < i :: !OccursAt(s, pattern, j)
    ensures FindText(s, pattern) == Some(i)
  {
    FindTextFinds(s, pattern);
  }

  lemma {:induction false} FindTextFits(s: string, pattern: string)
    ensures FindText(s, pattern).Some? ==> FindText(s, pattern).value + |pattern| <= |s|
    decreases |s|
  {
    if !(pattern <= s) && s != "" {
      FindTextFits(s[1..], pattern);
    }
  }

  /** The order is that of the first character that differs; a text comes before its continuations. */
  lemma {:induction false} LexLeExactly(a: string, b: string)
    ensures LexLe(a, b) <==> a <= b || exists n: nat :: DiffersAt(a, b, n) && a[n] < b[n]
  {
    if a != "" && b != "" {
      LexLeExactly(a[1..], b[1..]);
      if a[0] == b[0] {
        assert a == [a[0]] + a[1..] && b == [b[0]] + b[1..];
        assert a <= b <==> a[1..] <= b[1..];
        forall n: nat ensures DiffersAt(a[1..], b[1..], n) <==> DiffersAt(a, b, n + 1) {
          DiffersTail(a, b, n);
        }
        if exists n: nat :: DiffersAt(a[1..], b[1..], n) && a[1..][n] < b[1..][n] {
          var n: nat :| DiffersAt(a[1..], b[1..], n) && a[1..][n] < b[1..][n];
          assert DiffersAt(a, b, n + 1);
        }
        if exists n: nat :: DiffersAt(a, b, n) && a[n] < b[n] {
          var n: nat :| DiffersAt(a, b, n) && a[n] < b[n];
          assert n > 0 && DiffersAt(a[1..], b[1..], n - 1);
        }
      } else {
        assert DiffersAt(a, b, 0);
        assert !(a <= b);
        DiffersFirst(a, b);
      }
    }
  }

  predicate DiffersAt(a: string, b: string, n: nat) {
    n < |a| && n < |b| && a[..n] == b[..n] && a[n] != b[n]
  }

  lemma DiffersFirst(a: string, b: string)
    requires a != "" && b != "" && a[0] != b[0]
    ensures forall n: nat :: DiffersAt(a, b, n) ==> n == 0
  {
    forall n: nat ensures DiffersAt(a, b, n) ==> n == 0 {
      if 0 < n <= |a| && n <= |b| {
        assert a[..n][0] != b[..n][0];
      }
    }
  }

  lemma DiffersTail(a: string, b: string, n: nat)
    requires a != "" && b != "" && a[0] == b[0]
    ensures DiffersAt(a[1..], b[1..], n) <==> DiffersAt(a, b, n + 1)
  {
    if n + 1 <= |a| && n + 1 <= |b| {
      assert a[..n + 1] == [a[0]] + a[1..][..n] && b[..n + 1] == [b[0]] + b[1..][..n];
      assert a[1..][..n] == a[..n + 1][1..] && b[1..][..n] == b[..n + 1][1..];
    }
  }

  predicate StartsWith(s: string, prefix: string) {
    prefix <= s
  }

  function StripPrefix(s: string, prefix: string): Option<string> {
    if prefix <= s then Some(s[|prefix|..]) else None
  }

  /** The part of a path before its first slash. */
  function FirstSegment(path: string): string {
    if path == "" || path[0] == '/' then "" else [path[0]] + FirstSegment(path[1..])
  }

  /** `str::replace`: every occurrence, found from the left, without overlaps. */
  function ReplaceAll(s: string, from: string, to: string): string
    requires from != ""
    decreases |s|
  {
    if s == "" then ""
    else if StartsWith(s, from) then to + ReplaceAll(s[|from|..], from, to)
    else [s[0]] + ReplaceAll(s[1..], from, to)
  }

  /** The segments of a path, which slashes separate. */
  function Segments(path: string): seq<string>
    decreases |path|
  {
    FirstSegmentFits(path);
    [FirstSegment(path)] + SegmentsBehind(path, |FirstSegment(path)|)
  }

  function SegmentsBehind(path: string, slash: nat): seq<string>
    requires slash <= |path|
    decreases |path|, 0
  {
    if slash == |path| then [] else Segments(path[slash + 1..])
  }

  lemma {:induction false} FirstSegmentFits(path: string)
    ensures |FirstSegment(path)| <= |path|
  {
    if path != "" && path[0] != '/' {
      FirstSegmentFits(path[1..]);
    }
  }

  predicate Free(s: string, c: char) {
    forall i | 0 <= i < |s| :: s[i] != c
  }

  /** A name without a slash is one segment, also in front of a slash. */
  lemma {:induction false} FirstSegmentOf(name: string, rest: string)
    requires Free(name, '/') && (rest == "" || rest[0] == '/')
    ensures FirstSegment(name + rest) == name
  {
    if name == "" {
      assert name + rest == rest;
    } else {
      assert (name + rest)[1..] == name[1..] + rest;
      FirstSegmentOf(name[1..], rest);
    }
  }

  lemma SegmentsOf(name: string, rest: string)
    requires Free(name, '/') && (rest == "" || rest[0] == '/')
    ensures Segments(name + rest) == [name] + if rest == "" then [] else Segments(rest[1..])
  {
    FirstSegmentOf(name, rest);
    if rest != "" {
      assert (name + rest)[|name| + 1..] == rest[1..];
    }
  }

  lemma ReplaceStep(s: string, from: string, to: string)
    requires from != "" && s != "" && !StartsWith(s, from)
    ensures ReplaceAll(s, from, to) == [s[0]] + ReplaceAll(s[1..], from, to)
  {
  }

  lemma Rejoin(front: string, result: string)
    requires front != ""
    ensures [front[0]] + (front[1..] + result) == front + result
  {
  }

  lemma ReplaceHere(from: string, back: string, to: string)
    requires from != ""
    ensures ReplaceAll(from + back, from, to) == to + ReplaceAll(back, from, to)
  {
    assert (from + back)[|from|..] == back;
  }

  /** What stands in front of the first occurrence stays, and it goes on behind it. */
  lemma {:induction false} ReplaceFirst(s: string, front: string, from: string, back: string, to: string)
    requires from != "" && s == front + (from + back) && FindText(s, from) == Some(|front|)
    ensures ReplaceAll(s, from, to) == front + (to + ReplaceAll(back, from, to))
    decreases |front|
  {
    if front == "" {
      assert s == from + back;
      ReplaceHere(from, back, to);
    } else {
      assert s[1..] == front[1..] + (from + back);
      ReplaceFirst(s[1..], front[1..], from, back, to);
      ReplaceStep(s, from, to);
      Rejoin(front, to + ReplaceAll(back, from, to));
    }
  }

  lemma {:induction false} ReplaceNone(s: string, from: string, to: string)
    requires from != "" && FindText(s, from).None?
    ensures ReplaceAll(s, from, to) == s
  {
    if s != "" {
      ReplaceNone(s[1..], from, to);
    }
  }

  /** Text without the first character of the pattern has no occurrence. */
  lemma {:induction false} NothingToReplace(s: string, from: string, to: string)
    requires from != "" && Free(s, from[0])
    ensures ReplaceAll(s, from, to) == s
  {
    if s != "" {
      assert !StartsWith(s, from);
      NothingToReplace(s[1..], from, to);
    }
  }

  /** The characters with the Unicode property White_Space, which `str::trim` removes. */
  predicate IsSpace(c: char) {
    var n := c as int;
    || 0x09 <= n <= 0x0d || n == 0x20 || n == 0x85 || n == 0xa0 || n == 0x1680
    || 0x2000 <= n <= 0x200a || n == 0x2028 || n == 0x2029 || n == 0x202f || n == 0x205f
    || n == 0x3000
  }

  /** In ASCII these are tab to carriage return, and the space. */
  lemma AsciiSpaces(c: char)
    requires c as int < 0x80
    ensures IsSpace(c) <==> c == ' ' || c == '\t' || c == '\n' || c == '\r' || c as int == 0x0b || c as int == 0x0c
  {
  }

  predicate AllSpace(s: string) {
    forall i | 0 <= i < |s| :: IsSpace(s[i])
  }
}
