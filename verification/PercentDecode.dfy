/**
 The in-place percent decoder of functions/strDecode.c. A byte is a `char`; a C string is the part
 of a buffer before its first '\0'.
 */
module PercentDecode {

  /** `isxdigit`. */
  predicate IsHex(c: char) {
    '0' <= c <= '9' || 'a' <= c <= 'f' || 'A' <= c <= 'F'
  }

  const LOWER_DIGITS := "0123456789abcdef"
  const UPPER_DIGITS := "0123456789ABCDEF"

  /** `c` is the hex digit for `v`, in either case. */
  predicate IsDigitFor(c: char, v: nat) {
    v < 16 && (c == LOWER_DIGITS[v] || c == UPPER_DIGITS[v])
  }

  /** `hexit`. */
  function Hexit(c: char): (v: nat)
    ensures if IsHex(c) then IsDigitFor(c, v) else v == 0
  {
    if '0' <= c <= '9' then c as int - '0' as int
    else if 'a' <= c <= 'f' then c as int - 'a' as int + 10
    else if 'A' <= c <= 'F' then c as int - 'A' as int + 10
    else 0
  }

  predicate StartsEscape(s: string) {
    |s| >= 3 && s[0] == '%' && IsHex(s[1]) && IsHex(s[2])
  }

  function Escaped(s: string): char
    requires |s| >= 3
  {
    (Hexit(s[1]) * 16 + Hexit(s[2])) as char
  }

  /** The decoding of a string, as a function. */
  function Decode(s: string): string {
    if s == "" then ""
    else if StartsEscape(s) then [Escaped(s)] + Decode(s[3..])
    else [s[0]] + Decode(s[1..])
  }

  /** The escapes that decoding meets from left to right. */
  function Escapes(s: string): nat {
    if s == "" then 0
    else if StartsEscape(s) then 1 + Escapes(s[3..])
    else Escapes(s[1..])
  }

  lemma {:induction false} DecodeShrinks(s: string)
    ensures |Decode(s)| + 2 * Escapes(s) == |s|
  {
    if s != "" {
      DecodeShrinks(if StartsEscape(s) then s[3..] else s[1..]);
    }
  }

  /** The digits in the two tables are the hex digits, each for one value. */
  lemma DigitsAreHex(c: char, v: nat)
    ensures IsDigitFor(c, v) ==> IsHex(c) && Hexit(c) == v
    ensures IsHex(c) <==> c in LOWER_DIGITS || c in UPPER_DIGITS
  {
    if IsHex(c) {
      assert c == LOWER_DIGITS[Hexit(c)] || c == UPPER_DIGITS[Hexit(c)];
    }
  }

  /** `e` starts with the three bytes that stand for the byte `b`. */
  predicate EscapeFor(e: string, b: char) {
    |e| >= 3 && e[0] == '%' && IsDigitFor(e[1], b as int / 16) && IsDigitFor(e[2], b as int % 16)
  }

  /** `e` starts like an escape. */
  predicate LooksEscaped(e: string) {
    && |e| >= 3 && e[0] == '%'
    && (e[1] in LOWER_DIGITS || e[1] in UPPER_DIGITS) && (e[2] in LOWER_DIGITS || e[2] in UPPER_DIGITS)
  }

  /**
   `e` is a percent-encoding of `s`: every byte is escaped, with hex digits in either case, or stands for
   itself where that does not look like an escape.
   */
  predicate Encodes(e: string, s: string)
    decreases |s|
  {
    if s == "" then e == ""
    else
      || (e != "" && e[0] == s[0] && !LooksEscaped(e) && Encodes(e[1..], s[1..]))
      || (EscapeFor(e, s[0]) && Encodes(e[3..], s[1..]))
  }

  lemma EscapeIs(e: string, b: char)
    ensures StartsEscape(e) <==> LooksEscaped(e)
    ensures EscapeFor(e, b) <==> StartsEscape(e) && Escaped(e) == b
  {
    if |e| >= 3 {
      DigitsAreHex(e[1], b as int / 16);
      DigitsAreHex(e[2], b as int % 16);
    }
  }

  /** Decoding gives exactly the string that was encoded (section 2.1 of RFC 3986). */
  lemma {:induction false} DecodeUndoesEncoding(e: string, s: string)
    ensures Encodes(e, s) <==> Decode(e) == s
    decreases |s|
  {
    if s != "" {
      EscapeIs(e, s[0]);
      if StartsEscape(e) {
        DecodeUndoesEncoding(e[3..], s[1..]);
      } else if e != "" {
        DecodeUndoesEncoding(e[1..], s[1..]);
      }
      DecodeStartsWith(e, s);
    }
  }

  lemma DecodeStartsWith(e: string, s: string)
    requires s != ""
    ensures Decode(e) == s <==>
            && e != "" && (if StartsEscape(e) then Escaped(e) else e[0]) == s[0]
            && Decode(if StartsEscape(e) then e[3..] else e[1..]) == s[1..]
  {
    assert s == [s[0]] + s[1..];
  }

  /** Every string of bytes has an encoding; the one that escapes everything, for example. */
  lemma {:induction false} EveryStringHasEncoding(s: string) returns (e: string)
    requires forall i :: 0 <= i < |s| ==> s[i] as int < 256
    ensures Encodes(e, s) && |e| == 3 * |s| && forall i :: 0 <= i < |e| ==> e[i] == '%' || IsHex(e[i])
  {
    if s == "" {
      e := "";
    } else {
      var rest := EveryStringHasEncoding(s[1..]);
      var v := s[0] as int;
      e := ['%', UPPER_DIGITS[v / 16], UPPER_DIGITS[v % 16]] + rest;
      DigitsAreHex(UPPER_DIGITS[v / 16], v / 16);
      DigitsAreHex(UPPER_DIGITS[v % 16], v % 16);
      assert e[3..] == rest;
    }
  }

  /** The buffer holds a C string of length `n`. */
  predicate IsCString(a: seq<char>, n: nat) {
    n < |a| && a[n] == '\0' && forall i :: 0 <= i < n ==> a[i] != '\0'
  }

  /**
   The buffer was `before` and is now `now`: `out` has been written from `base` to `to`, and decoding
   what is left from `from` completes it. Everything else is as it was.
   */
  ghost predicate Halfway(before: seq<char>, now: seq<char>, base: nat, n: nat, to: nat, from: nat, out: string) {
    && IsCString(before, n) && |now| == |before| && base <= to <= from <= n
    && |out| == to - base && (forall i :: 0 <= i < |out| ==> now[base + i] == out[i])
    && out + Decode(before[from..n]) == Decode(before[base..n])
    && forall i :: 0 <= i < base || to <= i < |now| ==> now[i] == before[i]
  }

  predicate EscapeAt(a: seq<char>, i: nat) {
    i + 2 < |a| && a[i] == '%' && IsHex(a[i + 1]) && IsHex(a[i + 2])
  }

  /** One turn of the loop copies a byte or decodes an escape. */
  lemma Turn(before: seq<char>, now: seq<char>, base: nat, n: nat, to: nat, from: nat, out: string, c: char, next: nat)
    requires Halfway(before, now, base, n, to, from, out) && from < n
    requires if EscapeAt(before, from)
             then c == (Hexit(before[from + 1]) * 16 + Hexit(before[from + 2])) as char && next == from + 3
             else c == before[from] && next == from + 1
    ensures next <= n && Halfway(before, now[to := c], base, n, to + 1, next, out + [c])
  {
    DecodesOne(before, from, n);
    Reassociate(out, c, Decode(before[next..n]));
  }

  lemma Reassociate(out: string, c: char, rest: string)
    ensures out + ([c] + rest) == out + [c] + rest
  {
  }

  /** The first byte that is decoded from the rest, and the bytes after it. */
  lemma DecodesOne(before: seq<char>, from: nat, n: nat)
    requires IsCString(before, n) && from < n
    ensures if EscapeAt(before, from) then
              && from + 3 <= n
              && Decode(before[from..n])
                 == [(Hexit(before[from + 1]) * 16 + Hexit(before[from + 2])) as char] + Decode(before[from + 3..n])
            else Decode(before[from..n]) == [before[from]] + Decode(before[from + 1..n])
  {
    var rest := before[from..n];
    assert rest[1..] == before[from + 1..n];
    assert StartsEscape(rest) <==> EscapeAt(before, from);
    if StartsEscape(rest) {
      assert rest[3..] == before[from + 3..n];
    }
  }

  /** The body of the loop: copies the byte at `from`, or decodes the escape there. */
  method DecodeOne(a: array<char>, to: nat, from: nat,
                   ghost before: seq<char>, ghost base: nat, ghost n: nat, ghost out: string)
    returns (next: nat)
    requires Halfway(before, a[..], base, n, to, from, out) && from < n
    modifies a
    ensures from < next <= n && to < a.Length && Halfway(before, a[..], base, n, to + 1, next, out + [a[to]])
  {
    ghost var now := a[..];
    assert a[from] == before[from] && a[from] != '\0';
    next := from;
    if a[from] == '%' && IsHex(a[from + 1]) && IsHex(a[from + 2]) {
      a[to] := (Hexit(a[from + 1]) * 16 + Hexit(a[from + 2])) as char;
      next := next + 2;
    } else {
      a[to] := a[from];
    }
    next := next + 1;
    assert a[..] == now[to := a[to]];
    Turn(before, now, base, n, to, from, out, a[to], next);
  }

  /**
   `strDecode` with the same pointer, `base` bytes into the buffer, for both arguments. The buffer
   may end right after the terminator, so the bounds checks show that nothing past it is read.
   */
  method StrDecodeInPlace(a: array<char>, base: nat, ghost n: nat)
    requires IsCString(a[..], n) && base <= n
    modifies a
    ensures var d := Decode(old(a[base..n]));
      && base + |d| <= n && a[base..base + |d|] == d && a[base + |d|] == '\0'
      && (forall i :: 0 <= i < base || base + |d| < i < a.Length ==> a[i] == old(a[i]))
      && Encodes(old(a[base..n]), d)
  {
    ghost var before := a[..];
    ghost var out := "";
    var to: nat, from: nat := base, base;
    while a[from] != '\0'
      invariant Halfway(before, a[..], base, n, to, from, out)
      decreases n - from
    {
      from := DecodeOne(a, to, from, before, base, n, out);
      out := out + [a[to]];
      to := to + 1;
    }
    ghost var now := a[..];
    a[to] := '\0';
    assert a[..] == now[to := '\0'];
    Finished(before, now, base, n, to, out);
    DecodeUndoesEncoding(before[base..n], Decode(before[base..n]));
  }

  /** The terminator completes the decoded string. */
  lemma Finished(before: seq<char>, now: seq<char>, base: nat, n: nat, to: nat, out: string)
    requires Halfway(before, now, base, n, to, n, out)
    ensures var d, after := Decode(before[base..n]), now[to := '\0'];
      && base + |d| <= n && after[base..base + |d|] == d && after[base + |d|] == '\0'
      && forall i :: 0 <= i < base || base + |d| < i < |after| ==> after[i] == before[i]
  {
    assert before[n..n] == "" && out + "" == out;
    assert now[base..to] == out;
  }
}
