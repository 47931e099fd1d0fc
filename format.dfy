/**
 * The two pieces of Rust's standard library that the change log relies on:
 * `format!("{}", n)` for an unsigned integer, and `Vec<String>::join(sep)`.
 * Each comes with an inverse (a decimal parser, a split on one character)
 * and the round trip between the two.
 */
module Format {

  predicate IsDigit(c: char) {
    '0' <= c <= '9'
  }

  predicate AllDigits(s: string) {
    forall i :: 0 <= i < |s| ==> IsDigit(s[i])
  }

  function DigitChar(d: nat): (c: char)
    requires d < 10
    ensures IsDigit(c)
  {
    ('0' as int + d) as char
  }

  function DigitValue(c: char): (d: nat)
    requires IsDigit(c)
    ensures d < 10 && DigitChar(d) == c
  {
    c as int - '0' as int
  }

  /** Reads a string of decimal digits, most significant first (the empty string reads as 0). */
  function ParseDecimal(s: string): nat
    requires AllDigits(s)
  {
    if s == [] then 0 else 10 * ParseDecimal(s[..|s| - 1]) + DigitValue(s[|s| - 1])
  }

  /**
   * `format!("{}", n)` for an unsigned integer: the shortest decimal rendering,
   * so a single "0" for zero and no leading zero otherwise.
   */
  function Decimal(n: nat): (s: string)
    ensures |s| > 0 && AllDigits(s)
    ensures s[0] == '0' ==> s == "0"
    ensures ParseDecimal(s) == n
  {
    if n < 10 then
      [DigitChar(n)]
    else
      var front := Decimal(n / 10);
      var s := front + [DigitChar(n % 10)];
      assert s[..|s| - 1] == front;
      s
  }

  /**
   * `lines.join(sep)`: the lines with `sep` between neighbours and nothing
   * after the last. `JoinShape` states what a longer list gives, and
   * `SplitJoin` and `JoinSplit` its inverse.
   */
  function Join(lines: seq<string>, sep: string): (r: string)
    ensures |lines| == 0 ==> r == ""
  {
    if |lines| == 0 then ""
    else if |lines| == 1 then lines[0]
    else lines[0] + sep + Join(lines[1..], sep)
  }

  /** The number of characters in all the lines together. */
  function TotalLength(lines: seq<string>): nat
  {
    if lines == [] then 0 else |lines[0]| + TotalLength(lines[1..])
  }

  /**
   * A join of one or more lines is the line itself when there is one;
   * otherwise it starts with the first line, followed by `sep`, and ends
   * with the last line. It holds the characters of every line plus one
   * `sep` per pair of neighbours.
   */
  lemma {:induction false} JoinShape(lines: seq<string>, sep: string)
    requires |lines| >= 1
    ensures var r, first, last := Join(lines, sep), lines[0], lines[|lines| - 1];
      && (|lines| == 1 ==> r == first)
      && |r| == TotalLength(lines) + (|lines| - 1) * |sep|
      && |r| >= |first| && r[..|first|] == first
      && |r| >= |last| && r[|r| - |last|..] == last
      && (|lines| >= 2 ==> |r| >= |first| + |sep| && r[|first|..|first| + |sep|] == sep)
  {
    if |lines| >= 2 {
      var rest := Join(lines[1..], sep);
      JoinShape(lines[1..], sep);
      var r := lines[0] + sep + rest;
      assert Join(lines, sep) == r;
      assert (|lines| - 1) * |sep| == |sep| + (|lines| - 2) * |sep|;
      assert r[|r| - |rest|..] == rest;
    }
  }

  /** The position of the first `c` in `s`, or `|s|` when there is none. */
  function IndexOf(s: string, c: char): (i: nat)
    ensures i <= |s|
    ensures i < |s| ==> s[i] == c
    ensures forall j :: 0 <= j < i ==> s[j] != c
  {
    if s == [] then 0
    else if s[0] == c then 0
    else 1 + IndexOf(s[1..], c)
  }

  /** Cuts `s` at every `c`; the inverse of joining with `[c]`. */
  function SplitOn(s: string, c: char): (parts: seq<string>)
    ensures |parts| >= 1
    ensures forall k :: 0 <= k < |parts| ==> c !in parts[k]
    decreases |s|
  {
    var i := IndexOf(s, c);
    if i == |s| then
      [s]
    else
      [s[..i]] + SplitOn(s[i + 1..], c)
  }

  /** Joining with `[c]` and splitting on `c` give back the lines, when no line holds `c`. */
  lemma {:induction false} SplitJoin(lines: seq<string>, c: char)
    requires |lines| >= 1
    requires forall k :: 0 <= k < |lines| ==> c !in lines[k]
    ensures SplitOn(Join(lines, [c]), c) == lines
  {
    var head := lines[0];
    if |lines| == 1 {
      SplitWithout(head, c);
    } else {
      var rest := Join(lines[1..], [c]);
      assert Join(lines, [c]) == head + [c] + rest;
      SplitAtFirst(head, c, rest);
      SplitJoin(lines[1..], c);
      assert lines == [head] + lines[1..];
    }
  }

  /** A string without `c` splits into itself alone. */
  lemma SplitWithout(s: string, c: char)
    requires c !in s
    ensures SplitOn(s, c) == [s]
  {
    forall j | 0 <= j < |s| ensures s[j] != c {
      assert s[j] in s;
    }
  }

  /** The first cut falls at the `c` that follows a piece without `c`. */
  lemma SplitAtFirst(head: string, c: char, rest: string)
    requires c !in head
    ensures SplitOn(head + [c] + rest, c) == [head] + SplitOn(rest, c)
  {
    var s := head + [c] + rest;
    forall j | 0 <= j < |head| ensures s[j] != c {
      assert s[j] == head[j] && head[j] in head;
    }
    assert s[|head|] == c;
    assert IndexOf(s, c) == |head|;
    assert s[..|head|] == head;
    assert s[|head| + 1..] == rest;
  }

  /** Splitting on `c` and joining with `[c]` give back the string. */
  lemma {:induction false} JoinSplit(s: string, c: char)
    ensures Join(SplitOn(s, c), [c]) == s
    decreases |s|
  {
    var i := IndexOf(s, c);
    if i < |s| {
      var rest := SplitOn(s[i + 1..], c);
      JoinSplit(s[i + 1..], c);
      JoinCons(s[..i], rest, [c]);
      assert s == s[..i] + [c] + s[i + 1..];
    }
  }

  /** A line in front of one or more lines joins as that line, the separator, then their join. */
  lemma JoinCons(head: string, rest: seq<string>, sep: string)
    requires |rest| >= 1
    ensures Join([head] + rest, sep) == head + sep + Join(rest, sep)
  {
    assert ([head] + rest)[1..] == rest;
  }

  /** Two lines join as the first, the separator, then the second. */
  lemma JoinTwo(lines: seq<string>, sep: string)
    requires |lines| == 2
    ensures Join(lines, sep) == lines[0] + sep + lines[1]
  {
    assert lines[1..] == [lines[1]];
  }
}
