/**
 * The string built-ins the backend (Python's str) and the browser client
 * (JavaScript's String) rely on. A `string` is a sequence of Unicode scalar
 * values, which is what a Python str holds and, outside surrogates, what a
 * JavaScript string holds, so lengths and slices agree with the source.
 */
module Text {
  import opened Wrappers

  /** Python's str.isspace() for one character: what strip() removes. */
  predicate IsSpace(c: char) {
    var n := c as int;
    n == 0x20 || 0x09 <= n <= 0x0D || 0x1C <= n <= 0x1F || n == 0x85 || n == 0xA0
    || n == 0x1680 || 0x2000 <= n <= 0x200A || n == 0x2028 || n == 0x2029
    || n == 0x202F || n == 0x205F || n == 0x3000
  }

  /** The number of whitespace characters at the front of `s`. */
  function LeadingSpaces(s: string): (n: nat)
    ensures n <= |s|
    ensures forall k :: 0 <= k < n ==> IsSpace(s[k])
    ensures n == |s| || !IsSpace(s[n])
    decreases |s|
  {
    if |s| > 0 && IsSpace(s[0]) then 1 + LeadingSpaces(s[1..]) else 0
  }

  /** The number of whitespace characters at the end of `s`. */
  function TrailingSpaces(s: string): (n: nat)
    ensures n <= |s|
    ensures forall k :: |s| - n <= k < |s| ==> IsSpace(s[k])
    ensures n == |s| || !IsSpace(s[|s| - 1 - n])
    decreases |s|
  {
    if |s| > 0 && IsSpace(s[|s| - 1]) then 1 + TrailingSpaces(s[..|s| - 1]) else 0
  }

  /** Python's str.strip() without an argument. */
  function Strip(s: string): (r: string)
    ensures |r| <= |s|
  {
    var t := s[LeadingSpaces(s)..];
    t[..|t| - TrailingSpaces(t)]
  }

  /** Stripping removes the leading and trailing whitespace and nothing else. */
  lemma StripSpaces(s: string)
    ensures LeadingSpaces(s) + |Strip(s)| <= |s|
    ensures Strip(s) == s[LeadingSpaces(s)..LeadingSpaces(s) + |Strip(s)|]
    ensures Strip(s) == [] || (!IsSpace(Strip(s)[0]) && !IsSpace(Strip(s)[|Strip(s)| - 1]))
    ensures forall k :: 0 <= k < |s| && (k < LeadingSpaces(s) || LeadingSpaces(s) + |Strip(s)| <= k) ==> IsSpace(s[k])
  {
  }

  /** Stripping twice is stripping once. */
  lemma StripIdempotent(s: string)
    ensures Strip(Strip(s)) == Strip(s)
  {
    var r := Strip(s);
    StripSpaces(s);
    assert LeadingSpaces(r) == 0;
    assert TrailingSpaces(r[LeadingSpaces(r)..]) == 0;
  }

  /** `p` occurs in `s` starting at index `i`. */
  predicate OccursAt(s: string, p: string, i: int) {
    0 <= i && i + |p| <= |s| && s[i..i + |p|] == p
  }

  /** The first index at or after `i` where `p` occurs in `s` (Python's str.find from `i`). */
  function IndexFrom(s: string, p: string, i: nat): (r: Option<nat>)
    requires i <= |s|
    ensures r.Some? ==> i <= r.value && OccursAt(s, p, r.value)
    decreases |s| - i
  {
    if OccursAt(s, p, i) then Some(i)
    else if i == |s| then None
    else IndexFrom(s, p, i + 1)
  }

  /** No occurrence lies between `i` and the index found. */
  lemma {:induction false} IndexFromFirst(s: string, p: string, i: nat)
    requires i <= |s|
    ensures forall j :: i <= j && (IndexFrom(s, p, i).None? || j < IndexFrom(s, p, i).value) ==> !OccursAt(s, p, j)
    decreases |s| - i
  {
    if !OccursAt(s, p, i) && i < |s| {
      IndexFromFirst(s, p, i + 1);
    }
  }

  /** The first index where `p` occurs in `s`. */
  function IndexOf(s: string, p: string): Option<nat> {
    IndexFrom(s, p, 0)
  }

  /** Python's `p in s` and JavaScript's s.includes(p) on strings. */
  predicate Contains(s: string, p: string) {
    IndexOf(s, p).Some?
  }

  /** Any occurrence makes `Contains` hold. */
  lemma OccurrenceContains(s: string, p: string, i: int)
    requires OccursAt(s, p, i)
    ensures Contains(s, p)
  {
    IndexFromFirst(s, p, 0);
  }

  /** Python's str.startswith / JavaScript's startsWith. */
  predicate StartsWith(s: string, p: string) {
    |p| <= |s| && s[..|p|] == p
  }

  /** Python's str.endswith. */
  predicate EndsWith(s: string, p: string) {
    |p| <= |s| && s[|s| - |p|..] == p
  }

  /** The prefix `s[..j]` of `s` ends before the first occurrence at `j`, so it holds no occurrence. */
  lemma NoOccurrenceBefore(s: string, p: string, j: nat)
    requires |p| > 0 && j <= |s|
    requires forall k :: 0 <= k < j ==> !OccursAt(s, p, k)
    ensures forall k :: !OccursAt(s[..j], p, k)
  {
    forall k | OccursAt(s[..j], p, k)
      ensures false
    {
      assert s[..j][k..k + |p|] == s[k..k + |p|];
      assert OccursAt(s, p, k);
    }
  }

  /**
   * Python's `line.split(m)[1]` for a non-empty separator `m` that occurs
   * in `line`: the text after the first occurrence of `m`, up to the next
   * one or the end of the line.
   */
  function TextAfter(line: string, m: string): string
    requires |m| > 0 && Contains(line, m)
  {
    var i := IndexOf(line, m).value;
    var rest := line[i + |m|..];
    match IndexOf(rest, m)
    case Some(j) => rest[..j]
    case None => rest
  }

  /** What TextAfter returns lies right after the first `m` and ends at the next `m` or the line end. */
  lemma TextAfterBetween(line: string, m: string)
    requires |m| > 0 && Contains(line, m)
    ensures IndexOf(line, m).value + |m| + |TextAfter(line, m)| <= |line|
    ensures var start := IndexOf(line, m).value + |m|;
      TextAfter(line, m) == line[start..start + |TextAfter(line, m)|]
    ensures !Contains(TextAfter(line, m), m)
    ensures var end := IndexOf(line, m).value + |m| + |TextAfter(line, m)|; end == |line| || OccursAt(line, m, end)
  {
    var start := IndexOf(line, m).value + |m|;
    var rest, t := line[start..], TextAfter(line, m);
    match IndexOf(rest, m)
    case Some(j) =>
      assert t == rest[..j] && OccursAt(rest, m, j);
      assert rest[..j] == line[start..start + j];
      assert rest[j..j + |m|] == line[start + j..start + j + |m|];
      NoOccurrenceBefore(rest, m, j) by {
        IndexFromFirst(rest, m, 0);
      }
      NoOccurrenceNotContained(t, m);
    case None =>
      assert t == rest && line[start..start + |rest|] == rest;
  }

  /** Text in which `p` occurs nowhere does not contain it. */
  lemma NoOccurrenceNotContained(s: string, p: string)
    requires forall k :: !OccursAt(s, p, k)
    ensures !Contains(s, p)
  {
  }

  /** Python's str.split(sep) with a one-character separator. */
  function Split(s: string, sep: char): (r: seq<string>)
    ensures |r| >= 1
    decreases |s|
  {
    if s == [] then [""]
    else
      var rest := Split(s[1..], sep);
      if s[0] == sep then [""] + rest else [[s[0]] + rest[0]] + rest[1..]
  }

  /** Python's sep.join(parts) / JavaScript's parts.join(sep). */
  function Join(parts: seq<string>, sep: string): string
    decreases |parts|
  {
    if |parts| == 0 then ""
    else if |parts| == 1 then parts[0]
    else parts[0] + sep + Join(parts[1..], sep)
  }

  /** Joining the pieces of a split with the separator restores the text. */
  lemma {:induction false} JoinSplit(s: string, sep: char)
    ensures Join(Split(s, sep), [sep]) == s
    decreases |s|
  {
    if s != [] {
      var rest := Split(s[1..], sep);
      JoinSplit(s[1..], sep);
      if s[0] == sep {
        assert Split(s, sep) == [""] + rest;
        assert Join([""] + rest, [sep]) == "" + [sep] + Join(rest, [sep]);
      } else {
        var parts := [[s[0]] + rest[0]] + rest[1..];
        assert Split(s, sep) == parts;
        if |rest| == 1 {
          assert Join(parts, [sep]) == [s[0]] + rest[0];
        } else {
          assert parts[1..] == rest[1..];
          assert Join(rest, [sep]) == rest[0] + [sep] + Join(rest[1..], [sep]);
          assert Join(parts, [sep]) == [s[0]] + rest[0] + [sep] + Join(rest[1..], [sep]);
        }
      }
    }
  }

  /** Text without the separator is one piece. */
  lemma {:induction false} SplitWithoutSep(s: string, sep: char)
    requires sep !in s
    ensures Split(s, sep) == [s]
    decreases |s|
  {
    if s != [] {
      SplitWithoutSep(s[1..], sep);
      assert [s[0]] + s[1..] == s;
    }
  }

  /** Splitting text joined at a separator gives the pieces of each part. */
  lemma {:induction false} SplitConcat(a: string, b: string, sep: char)
    ensures Split(a + [sep] + b, sep) == Split(a, sep) + Split(b, sep)
    decreases |a|
  {
    if a == [] {
      assert a + [sep] + b == [sep] + b;
      SplitCons(sep, b, sep);
    } else {
      var c, a' := a[0], a[1..];
      SplitConcat(a', b, sep);
      SplitConcatStep(c, a', b, sep);
      assert a == [c] + a';
      assert a + [sep] + b == [c] + (a' + [sep] + b);
    }
  }

  /** The inductive step of SplitConcat: one more character in front of the first part. */
  lemma SplitConcatStep(c: char, a: string, b: string, sep: char)
    requires Split(a + [sep] + b, sep) == Split(a, sep) + Split(b, sep)
    ensures Split([c] + (a + [sep] + b), sep) == Split([c] + a, sep) + Split(b, sep)
  {
    SplitCons(c, a + [sep] + b, sep);
    SplitCons(c, a, sep);
    ConsPieces(c, sep, Split(a, sep), Split(b, sep));
  }

  /** The pieces after a leading character, before and after appending further pieces. */
  lemma ConsPieces(c: char, sep: char, ra: seq<string>, rb: seq<string>)
    requires |ra| >= 1
    ensures (if c == sep then [""] + (ra + rb) else [[c] + (ra + rb)[0]] + (ra + rb)[1..]) ==
      (if c == sep then [""] + ra else [[c] + ra[0]] + ra[1..]) + rb
  {
    if c != sep {
      assert (ra + rb)[1..] == ra[1..] + rb;
    }
  }

  /** Split of a text that starts with the character `c`. */
  lemma SplitCons(c: char, s: string, sep: char)
    ensures Split([c] + s, sep) ==
      if c == sep then [""] + Split(s, sep) else [[c] + Split(s, sep)[0]] + Split(s, sep)[1..]
  {
    assert ([c] + s)[0] == c && ([c] + s)[1..] == s;
  }

  /** Python's str.lower() / JavaScript's toLowerCase() on Latin and Cyrillic capitals; other characters are kept. */
  function LowerChar(c: char): char {
    var n := c as int;
    if 0x41 <= n <= 0x5A || 0x410 <= n <= 0x42F then (n + 0x20) as char
    else if 0x400 <= n <= 0x40F then (n + 0x50) as char
    else c
  }

  function Lower(s: string): string {
    seq(|s|, k requires 0 <= k < |s| => LowerChar(s[k]))
  }

  /** SQLite's case folding for LIKE: ASCII capitals only. */
  function AsciiLower(s: string): string {
    seq(|s|, k requires 0 <= k < |s| => if 'A' <= s[k] <= 'Z' then (s[k] as int + 0x20) as char else s[k])
  }

  /** Python's s[:n] and JavaScript's s.slice(0, n) for n >= 0. */
  function Take(s: string, n: nat): (r: string)
    ensures |r| == if |s| <= n then |s| else n
    ensures StartsWith(s, r)
  {
    if |s| <= n then s else s[..n]
  }

  /** Python's s.replace(p, "") for a non-empty `p`: occurrences are removed left to right without overlap. */
  function RemoveAll(s: string, p: string): (r: string)
    requires |p| > 0
    ensures |r| <= |s|
    decreases |s|
  {
    if StartsWith(s, p) then RemoveAll(s[|p|..], p)
    else if s == [] then []
    else [s[0]] + RemoveAll(s[1..], p)
  }

  /** Python's s.replace(a, b) for single characters. */
  function ReplaceChar(s: string, a: char, b: char): string {
    seq(|s|, k requires 0 <= k < |s| => if s[k] == a then b else s[k])
  }

  /** The number of occurrences of `c` in `s`; Python's len(s.split(c)) is one more. */
  function CountChar(s: string, c: char): nat
    decreases |s|
  {
    if s == [] then 0 else (if s[0] == c then 1 else 0) + CountChar(s[1..], c)
  }

  /** Python's len(s.split(c)) is one more than the number of `c` in `s`. */
  lemma {:induction false} SplitCount(s: string, c: char)
    ensures |Split(s, c)| == CountChar(s, c) + 1
    decreases |s|
  {
    if s != [] {
      SplitCount(s[1..], c);
    }
  }

  /** Decimal digits of `n`, as Python's str(n) and JavaScript's template literals write it. */
  function NatToString(n: nat): (r: string)
    ensures |r| >= 1
    ensures forall k :: 0 <= k < |r| ==> '0' <= r[k] <= '9'
    decreases n
  {
    var d := ['0' + (n % 10) as char];
    if n < 10 then d else NatToString(n / 10) + d
  }
}
