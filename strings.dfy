/** The handful of JavaScript string operations the core uses:
    `includes`, `startsWith`, `toLowerCase`, `Array.prototype.join`,
    number-to-decimal conversion in template literals, and (for stating
    properties of joined text) splitting at line breaks. */
module Strings {

  datatype Option<T> = None | Some(value: T)

  predicate IsDigit(c: char) {
    '0' <= c <= '9'
  }

  /** `t` occurs in `s` starting at index `i`. */
  predicate OccursAt(s: string, t: string, i: nat) {
    i + |t| <= |s| && s[i..i + |t|] == t
  }

  /** `s.includes(t)` */
  predicate Contains(s: string, t: string) {
    exists i: nat :: i <= |s| && OccursAt(s, t, i)
  }

  /** `s.startsWith(t)` */
  predicate StartsWith(s: string, t: string) {
    OccursAt(s, t, 0)
  }

  /** `toLowerCase` on one character, for the ASCII letters and the upper-case
      letters of Latin-1 (U+00C0 to U+00DE, except the multiplication sign U+00D7). */
  function LowerChar(c: char): char {
    if 'A' <= c <= 'Z' || (192 <= c as int <= 222 && c as int != 215) then
      (c as int + 32) as char
    else
      c
  }

  /** `s.toLowerCase()`, character by character. */
  function Lower(s: string): (r: string)
    ensures |r| == |s|
    ensures forall i :: 0 <= i < |s| ==> r[i] == LowerChar(s[i])
  {
    seq(|s|, i requires 0 <= i < |s| => LowerChar(s[i]))
  }

  /** `parts.join(sep)` */
  function Join(parts: seq<string>, sep: string): string
    decreases |parts|
  {
    if |parts| == 0 then ""
    else if |parts| == 1 then parts[0]
    else parts[0] + sep + Join(parts[1..], sep)
  }

  /** The decimal text of `n`, as `${n}` renders a non-negative integer. */
  function NatToString(n: nat): (r: string)
    ensures |r| > 0
    ensures forall i :: 0 <= i < |r| ==> IsDigit(r[i])
    decreases n
  {
    if n < 10 then [DigitChar(n)] else NatToString(n / 10) + [DigitChar(n % 10)]
  }

  function DigitChar(d: nat): char
    requires d < 10
  {
    ('0' as int + d) as char
  }

  /** The number a string of decimal digits denotes. */
  function DigitsValue(s: string): nat
    requires forall i :: 0 <= i < |s| ==> IsDigit(s[i])
    decreases |s|
  {
    if s == [] then 0
    else
      assert IsDigit(s[|s| - 1]);
      DigitsValue(s[..|s| - 1]) * 10 + (s[|s| - 1] as int - '0' as int)
  }

  /** Reading back the decimal text gives the number: distinct numbers render distinctly. */
  lemma {:induction false} NatToStringRoundTrip(n: nat)
    ensures DigitsValue(NatToString(n)) == n
    decreases n
  {
    if n >= 10 {
      var s := NatToString(n);
      assert s[..|s| - 1] == NatToString(n / 10);
      NatToStringRoundTrip(n / 10);
    }
  }

  predicate NoLineBreak(s: string) {
    forall j :: 0 <= j < |s| ==> s[j] != '\n'
  }

  lemma NoLineBreakConcat(a: string, b: string)
    requires NoLineBreak(a) && NoLineBreak(b)
    ensures NoLineBreak(a + b)
  {
    forall j | 0 <= j < |a + b| ensures (a + b)[j] != '\n' {
      if j >= |a| {
        assert (a + b)[j] == b[j - |a|];
      }
    }
  }

  /** Index of the first line break in `s`, or `|s|` when there is none. */
  function FirstNewline(s: string): (k: nat)
    ensures k <= |s|
    ensures forall j :: 0 <= j < k ==> s[j] != '\n'
    ensures k < |s| ==> s[k] == '\n'
    decreases |s|
  {
    if s == [] || s[0] == '\n' then 0 else 1 + FirstNewline(s[1..])
  }

  /** The lines of `s`: the pieces between line breaks. */
  function SplitLines(s: string): seq<string>
    decreases |s|
  {
    var k := FirstNewline(s);
    if k == |s| then [s] else [s[..k]] + SplitLines(s[k + 1..])
  }

  lemma ContainsInfix(a: string, s: string, b: string, t: string)
    requires Contains(s, t)
    ensures Contains(a + s + b, t)
  {
    var i: nat :| i <= |s| && OccursAt(s, t, i);
    assert (a + s + b)[|a| + i..|a| + i + |t|] == s[i..i + |t|];
    assert OccursAt(a + s + b, t, |a| + i);
  }

  /** `h + sep + rest` starts with `h + sep`, continues with `rest`, and so contains `sep + rest`. */
  lemma SplitAround(h: string, sep: string, rest: string)
    ensures StartsWith(h + sep + rest, h + sep)
    ensures (h + sep + rest)[|h| + |sep|..] == rest
    ensures Contains(h + sep + rest, sep + rest)
  {
    var s := h + sep + rest;
    assert s[..|h + sep|] == h + sep;
    assert s[|h|..|h| + |sep + rest|] == sep + rest;
    assert OccursAt(s, sep + rest, |h|);
  }

  lemma ContainsLeft(a: string, s: string, t: string)
    requires Contains(s, t)
    ensures Contains(a + s, t)
  {
    ContainsInfix(a, s, "", t);
    assert a + s + "" == a + s;
  }

  lemma ContainsRight(s: string, b: string, t: string)
    requires Contains(s, t)
    ensures Contains(s + b, t)
  {
    ContainsInfix("", s, b, t);
    assert "" + s + b == s + b;
  }

  lemma StartsWithAppend(s: string, b: string, t: string)
    requires StartsWith(s, t)
    ensures StartsWith(s + b, t)
  {
    assert (s + b)[..|t|] == s[..|t|];
  }

  lemma ContainsSelf(s: string)
    ensures Contains(s, s)
  {
    assert s[0..|s|] == s;
    assert OccursAt(s, s, 0);
  }

  /** Every part of a joined list occurs in the joined text. */
  lemma {:induction false} JoinContains(parts: seq<string>, sep: string, i: nat)
    requires i < |parts|
    ensures Contains(Join(parts, sep), parts[i])
    decreases |parts|
  {
    if |parts| == 1 {
      ContainsSelf(parts[0]);
    } else if i == 0 {
      ContainsSelf(parts[0]);
      ContainsInfix("", parts[0], sep + Join(parts[1..], sep), parts[0]);
      assert "" + parts[0] + (sep + Join(parts[1..], sep)) == Join(parts, sep);
    } else {
      JoinContains(parts[1..], sep, i - 1);
      ContainsInfix(parts[0] + sep, Join(parts[1..], sep), "", parts[i]);
      assert parts[0] + sep + Join(parts[1..], sep) + "" == Join(parts, sep);
    }
  }

  lemma {:induction false} FirstNewlineAbsent(p: string)
    requires NoLineBreak(p)
    ensures FirstNewline(p) == |p|
    decreases |p|
  {
    if p != [] {
      FirstNewlineAbsent(p[1..]);
    }
  }

  lemma {:induction false} FirstNewlineAt(p: string, rest: string)
    requires NoLineBreak(p)
    ensures FirstNewline(p + "\n" + rest) == |p|
    decreases |p|
  {
    if p != [] {
      assert (p + "\n" + rest)[1..] == p[1..] + "\n" + rest;
      FirstNewlineAt(p[1..], rest);
    }
  }

  /** Joining with line breaks and splitting again gives the parts back, as
      long as there is at least one part and no part holds a line break. */
  lemma {:induction false} SplitJoin(parts: seq<string>)
    requires |parts| > 0
    requires forall i :: 0 <= i < |parts| ==> NoLineBreak(parts[i])
    ensures SplitLines(Join(parts, "\n")) == parts
    decreases |parts|
  {
    var p := parts[0];
    if |parts| == 1 {
      FirstNewlineAbsent(p);
    } else {
      var rest := Join(parts[1..], "\n");
      var s := p + "\n" + rest;
      assert s == Join(parts, "\n");
      FirstNewlineAt(p, rest);
      var k := FirstNewline(s);
      assert s[..k] == p;
      assert s[k + 1..] == rest;
      SplitJoin(parts[1..]);
    }
  }
}
