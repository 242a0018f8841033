/**
 C strings and the C library functions the programs use on them. A byte is a `char`.
 */
module CText {

  datatype Option<T> = None | Some(value: T)

  const EOL := "\r\n"

  /** What C sees of a buffer: the bytes before the first '\0'. */
  function CString(s: string): (r: string)
    ensures '\0' !in r
    ensures r <= s && (|r| < |s| ==> s[|r|] == '\0')
  {
    if s == "" || s[0] == '\0' then "" else [s[0]] + CString(s[1..])
  }

  /** A terminator makes what follows it invisible. */
  lemma {:induction false} CStringStops(s: string, n: nat)
    requires n < |s| && s[n] == '\0'
    ensures CString(s) == CString(s[..n])
  {
    if n > 0 && s[0] != '\0' {
      CStringStops(s[1..], n - 1);
      assert s[..n][1..] == s[1..][..n - 1];
    }
  }

  // ---- Searching ----

  predicate OccursAt(s: string, pattern: string, i: nat) {
    i + |pattern| <= |s| && s[i..i + |pattern|] == pattern
  }

  /** `strstr(s, pattern) != NULL`. */
  predicate Contains(s: string, pattern: string) {
    exists i: nat :: i <= |s| && OccursAt(s, pattern, i)
  }

  /** The position that `strstr(s + from, pattern)` returns. */
  function Find(s: string, pattern: string, from: nat): (r: Option<nat>)
    ensures r.Some? ==> from <= r.value && r.value + |pattern| <= |s|
    decreases |s| - from
  {
    if from > |s| then None
    else if OccursAt(s, pattern, from) then Some(from)
    else if from == |s| then None
    else Find(s, pattern, from + 1)
  }

  /** `Find` gives the first occurrence from `from` on. */
  lemma {:induction false} FindGivesFirst(s: string, pattern: string, from: nat)
    ensures match Find(s, pattern, from)
      case Some(k) => OccursAt(s, pattern, k) && forall i: nat :: from <= i < k ==> !OccursAt(s, pattern, i)
      case None => forall i: nat :: from <= i ==> !OccursAt(s, pattern, i)
    decreases |s| - from
  {
    if from < |s| && !OccursAt(s, pattern, from) {
      FindGivesFirst(s, pattern, from + 1);
    }
  }

  lemma {:induction false} FindIs(s: string, pattern: string, from: nat, k: nat)
    requires from <= k <= |s| && OccursAt(s, pattern, k)
    requires forall i: nat :: from <= i < k ==> !OccursAt(s, pattern, i)
    ensures Find(s, pattern, from) == Some(k)
    decreases k - from
  {
    if from < k {
      FindIs(s, pattern, from + 1, k);
    }
  }

  /** Where an occurrence in a concatenation can lie. */
  lemma OccursInSum(a: string, b: string, pattern: string, i: nat)
    ensures i + |pattern| <= |a| ==> (OccursAt(a + b, pattern, i) <==> OccursAt(a, pattern, i))
    ensures i >= |a| ==> (OccursAt(a + b, pattern, i) <==> OccursAt(b, pattern, i - |a|))
  {
    if i + |pattern| <= |a| {
      assert (a + b)[i..i + |pattern|] == a[i..i + |pattern|];
    }
    if i >= |a| && i + |pattern| <= |a + b| {
      assert (a + b)[i..i + |pattern|] == b[i - |a|..i - |a| + |pattern|];
    }
  }

  lemma OccursByte(s: string, pattern: string, i: nat, j: nat)
    requires OccursAt(s, pattern, i) && j < |pattern|
    ensures s[i + j] == pattern[j]
  {
    assert s[i..i + |pattern|][j] == pattern[j];
  }

  // ---- Ignoring case ----

  /** `toupper`. */
  function Upper(c: char): char {
    if 'a' <= c <= 'z' then (c as int - 32) as char else c
  }

  const LOWER_LETTERS := "abcdefghijklmnopqrstuvwxyz"
  const UPPER_LETTERS := "ABCDEFGHIJKLMNOPQRSTUVWXYZ"

  /** Each lower-case letter becomes its upper-case letter, everything else stays. */
  lemma UpperIs(k: nat, c: char)
    ensures k < 26 ==> Upper(LOWER_LETTERS[k]) == UPPER_LETTERS[k]
    ensures c !in LOWER_LETTERS ==> Upper(c) == c
  {
    if 'a' <= c <= 'z' {
      assert LOWER_LETTERS[c as int - 'a' as int] == c;
    }
  }

  predicate SameLetters(a: string, b: string) {
    |a| == |b| && forall j :: 0 <= j < |a| ==> Upper(a[j]) == Upper(b[j])
  }

  /** A match that `strcasestr` can find: it never tries the one at the very end of the haystack. */
  predicate MatchesAt(haystack: string, needle: string, i: nat) {
    i + |needle| < |haystack| && SameLetters(haystack[i..i + |needle|], needle)
  }

  ghost predicate FirstMatch(haystack: string, needle: string, r: Option<nat>) {
    match r
    case Some(k) => MatchesAt(haystack, needle, k) && forall i: nat :: i < k ==> !MatchesAt(haystack, needle, i)
    case None => forall i: nat :: !MatchesAt(haystack, needle, i)
  }

  /** functions/strcasestr.c: the first match among those that do not end at the last byte. */
  method StrCaseStr(haystack: string, needle: string) returns (r: Option<nat>)
    ensures FirstMatch(haystack, needle, r)
  {
    var i := 0;
    while i < |haystack| - |needle|
      invariant 0 <= i && (i <= |haystack| - |needle| || i == 0)
      invariant forall k: nat :: k < i ==> !MatchesAt(haystack, needle, k)
    {
      var isMatch := true;
      var j := 0;
      while j < |needle|
        invariant 0 <= j <= |needle|
        invariant isMatch ==> forall k :: 0 <= k < j ==> Upper(haystack[i + k]) == Upper(needle[k])
        invariant !isMatch ==> exists k :: 0 <= k < |needle| && Upper(haystack[i + k]) != Upper(needle[k])
      {
        var ch1 := Upper(haystack[i + j]);
        var ch2 := Upper(needle[j]);
        if ch1 != ch2 {
          isMatch := false;
          j := |needle|;
        } else {
          j := j + 1;
        }
      }
      if isMatch {
        return Some(i);
      }
      i := i + 1;
    }
    return None;
  }

  /** The position that `strcasestr` returns, as a function. */
  function CaseFind(haystack: string, needle: string, from: nat): (r: Option<nat>)
    ensures r.Some? ==> from <= r.value && r.value + |needle| < |haystack|
    decreases |haystack| - from
  {
    if from >= |haystack| then None
    else if MatchesAt(haystack, needle, from) then Some(from)
    else CaseFind(haystack, needle, from + 1)
  }

  lemma {:induction false} CaseFindIs(haystack: string, needle: string, from: nat, r: Option<nat>)
    requires r.Some? ==> from <= r.value && MatchesAt(haystack, needle, r.value)
    requires forall i: nat :: from <= i && (r.Some? ==> i < r.value) ==> !MatchesAt(haystack, needle, i)
    ensures CaseFind(haystack, needle, from) == r
    decreases |haystack| - from
  {
    if from < |haystack| && r != Some(from) {
      CaseFindIs(haystack, needle, from + 1, r);
    }
  }

  lemma FirstMatchIsCaseFind(haystack: string, needle: string, r: Option<nat>)
    requires FirstMatch(haystack, needle, r)
    ensures r == CaseFind(haystack, needle, 0)
  {
    CaseFindIs(haystack, needle, 0, r);
  }

  /** A match that is the end of the haystack is not found; with one more byte it is. */
  lemma NotAtTheEnd(text: string, c: char)
    ensures CaseFind(text, text, 0) == None && CaseFind(text + [c], text, 0) == Some(0)
  {
    CaseFindIs(text, text, 0, None);
    assert (text + [c])[0..|text|] == text;
    CaseFindIs(text + [c], text, 0, Some(0));
  }

  // ---- Numbers ----

  predicate IsDigit(c: char) {
    '0' <= c <= '9'
  }

  /** `isspace`. */
  predicate IsSpace(c: char) {
    c == ' ' || '\t' <= c <= '\r'
  }

  function SkipSpace(s: string): string {
    if s != "" && IsSpace(s[0]) then SkipSpace(s[1..]) else s
  }

  function Number(s: string, sofar: nat): nat
    decreases |s|
  {
    if s != "" && IsDigit(s[0]) then Number(s[1..], 10 * sofar + (s[0] as int - '0' as int)) else sofar
  }

  /** `atoi`; the int it returns is modelled without its bound. */
  function Atoi(s: string): int {
    var t := SkipSpace(s);
    if t != "" && t[0] == '-' then (var v: int := Number(t[1..], 0); -v)
    else if t != "" && t[0] == '+' then Number(t[1..], 0)
    else Number(t, 0)
  }

  function Digit(d: nat): (c: char)
    requires d < 10
    ensures IsDigit(c)
  {
    ('0' as int + d) as char
  }

  /** What "%d" prints. */
  function Digits(n: nat): (s: string)
    ensures s != "" && forall i :: 0 <= i < |s| ==> IsDigit(s[i])
  {
    if n < 10 then [Digit(n)] else Digits(n / 10) + [Digit(n % 10)]
  }

  lemma {:induction false} NumberOfDigits(n: nat, rest: string)
    ensures Number(Digits(n) + rest, 0) == Number(rest, n)
  {
    if n < 10 {
      assert (Digits(n) + rest)[1..] == rest;
    } else {
      var d := Digit(n % 10);
      assert Digits(n) + rest == Digits(n / 10) + ([d] + rest);
      NumberOfDigits(n / 10, [d] + rest);
      assert ([d] + rest)[1..] == rest;
    }
  }

  /** Reading back what was printed. */
  lemma AtoiOfDigits(n: nat, rest: string)
    requires rest == "" || !IsDigit(rest[0])
    ensures Atoi(Digits(n) + rest) == n
  {
    NumberOfDigits(n, rest);
  }

  /** White space before a number is skipped, and one sign is read. */
  lemma AtoiIs(n: nat, rest: string, space: char)
    requires rest == "" || !IsDigit(rest[0])
    ensures Atoi("-" + (Digits(n) + rest)) == 0 - n && Atoi("+" + (Digits(n) + rest)) == n
    ensures space in " \t\n\r" || space as int in {11, 12} ==> Atoi([space] + (Digits(n) + rest)) == n
    ensures IsSpace(space) <==> space in " \t\n\r" || space as int in {11, 12}
  {
    NumberOfDigits(n, rest);
    assert ("-" + (Digits(n) + rest))[1..] == Digits(n) + rest;
    assert ("+" + (Digits(n) + rest))[1..] == Digits(n) + rest;
    assert ([space] + (Digits(n) + rest))[1..] == Digits(n) + rest;
    AtoiOfDigits(n, rest);
  }

  /** The digits are decimal: the last stands for ones, those before it for tens. */
  lemma DigitsAreDecimal(k: nat, d: nat)
    requires d < 10
    ensures Digits(10 * k + d) == (if k == 0 then "" else Digits(k)) + ["0123456789"[d]]
    ensures forall c :: IsDigit(c) <==> c in "0123456789"
  {
  }

  function Power(k: nat): (r: nat)
    ensures r > 0
  {
    if k == 0 then 1 else 10 * Power(k - 1)
  }

  lemma {:induction false} DigitsAreFew(n: nat, k: nat, bound: nat)
    requires k > 0 && bound == Power(k) && n < bound
    ensures |Digits(n)| <= k
    decreases k
  {
    if n >= 10 {
      DigitsAreFew(n / 10, k - 1, Power(k - 1));
    }
  }

  lemma IntHasTenDigits(n: nat)
    requires n < 0x8000_0000
    ensures |Digits(n)| <= 10
  {
    var bound := 10_000_000_000;
    assert Power(3) == 1000;
    assert Power(6) == 1000 * Power(3);
    assert Power(9) == 1000 * Power(6);
    assert Power(10) == bound;
    DigitsAreFew(n, 10, bound);
  }
}
