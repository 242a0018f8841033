/**
 Reading the fields of an HTTP header: functions/getHeaderField.c and functions/getStatusCode.c.
 */
module HeaderFields {
  import opened CText

  const PROTOCOL := "HTTP/1.0"

  function SpacesEnd(s: string, from: nat): (r: nat)
    requires from <= |s|
    ensures from <= r <= |s| && (forall i :: from <= i < r ==> s[i] == ' ') && (r < |s| ==> s[r] != ' ')
    decreases |s| - from
  {
    if from < |s| && s[from] == ' ' then SpacesEnd(s, from + 1) else from
  }

  /** The value between the first colon and the first end of line after the first match, when the colon comes first. */
  function FieldOf(header: string, field: string): Option<string> {
    FieldIn(CString(header), field)
  }

  function FieldIn(text: string, field: string): Option<string> {
    var at := CaseFind(text, field, 0);
    if at.None? then None else
    var end := Find(text, EOL, at.value);
    var colon := Find(text, ":", at.value);
    if end.None? || colon.None? then None else ValueBetween(text, colon.value, end.value)
  }

  function ValueBetween(text: string, colon: nat, end: nat): Option<string>
    requires colon < |text| && end <= |text|
  {
    var start := SpacesEnd(text, colon + 1);
    if start <= end then Some(text[start..end]) else None
  }

  /** A colon in a later line makes the size of the value negative, never 0. */
  lemma SizeOfValue(text: string, from: nat, end: nat, colon: nat)
    requires Find(text, EOL, from) == Some(end) && Find(text, ":", from) == Some(colon)
    ensures var size := end - SpacesEnd(text, colon + 1) + 1;
      if colon < end then size >= 1 else size <= -2
  {
    FindGivesFirst(text, EOL, from);
    FindGivesFirst(text, ":", from);
    OccursByte(text, EOL, end, 0);
    OccursByte(text, EOL, end, 1);
    OccursByte(text, ":", colon, 0);
  }

  method GetHeaderField(header: string, field: string) returns (r: Option<string>)
    ensures r == FieldOf(header, field)
  {
    var toSearch := CString(header);
    var toFind := StrCaseStr(toSearch, field);
    FirstMatchIsCaseFind(toSearch, field, toFind);
    if toFind == None {
      return None;
    }
    var endOfLine := Find(toSearch, EOL, toFind.value);
    if endOfLine == None {
      return None;
    }
    var colon := Find(toSearch, ":", toFind.value);
    if colon == None {
      return None;
    }
    SizeOfValue(toSearch, toFind.value, endOfLine.value, colon.value);
    r := CopyValue(toSearch, colon.value, endOfLine.value);
  }

  /** The end of `getHeaderField`: skip the spaces after the colon, and copy. */
  method CopyValue(text: string, colon: nat, end: nat) returns (r: Option<string>)
    requires colon < |text| && end <= |text| && end - SpacesEnd(text, colon + 1) + 1 != 0
    ensures r == ValueBetween(text, colon, end)
  {
    var toFind := colon + 1;
    while toFind < |text| && text[toFind] == ' '
      invariant colon < toFind <= |text|
      invariant SpacesEnd(text, colon + 1) == SpacesEnd(text, toFind)
    {
      toFind := toFind + 1;
    }
    var size := end - toFind + 1;
    if size < 0 {
      // calloc of a negative size fails
      return None;
    }
    r := Some(text[toFind..toFind + size - 1]);
  }

  // ---- The header as lines ----

  /** A start line and the fields below it. */
  datatype Header = Header(start: string, fields: seq<(string, string)>)

  function PrintFields(fields: seq<(string, string)>): string {
    if fields == [] then EOL
    else fields[0].0 + ":" + fields[0].1 + EOL + PrintFields(fields[1..])
  }

  function Print(h: Header): string {
    h.start + EOL + PrintFields(h.fields)
  }

  /** No byte that would end a line or the C string. */
  predicate Inline(s: string) {
    forall i :: 0 <= i < |s| ==> s[i] != '\r' && s[i] != '\n' && s[i] != '\0'
  }

  predicate NoColon(s: string) {
    forall i :: 0 <= i < |s| ==> s[i] != ':'
  }

  predicate WellFormed(h: Header) {
    && Inline(h.start)
    && forall i :: 0 <= i < |h.fields| ==> Inline(h.fields[i].0) && NoColon(h.fields[i].0) && Inline(h.fields[i].1)
  }

  /** `name` begins with `prefix`, ignoring case. */
  predicate Begins(name: string, prefix: string) {
    |prefix| <= |name| && SameLetters(name[..|prefix|], prefix)
  }

  function Trim(s: string): string {
    if s != "" && s[0] == ' ' then Trim(s[1..]) else s
  }

  /** The value of the first field whose name begins with `name`. */
  function Lookup(fields: seq<(string, string)>, name: string): Option<string> {
    if fields == [] then None
    else if Begins(fields[0].0, name) then Some(Trim(fields[0].1))
    else Lookup(fields[1..], name)
  }

  lemma {:induction false} PrintIsText(h: Header)
    requires WellFormed(h)
    ensures '\0' !in Print(h) && CString(Print(h)) == Print(h)
  {
    FieldsAreText(h.fields);
    NoNul(Print(h));
  }

  lemma {:induction false} NoNul(s: string)
    requires '\0' !in s
    ensures CString(s) == s
  {
    if s != "" {
      NoNul(s[1..]);
    }
  }

  lemma {:induction false} FieldsAreText(fields: seq<(string, string)>)
    requires forall i :: 0 <= i < |fields| ==> Inline(fields[i].0) && Inline(fields[i].1)
    ensures '\0' !in PrintFields(fields)
  {
    if fields != [] {
      FieldsAreText(fields[1..]);
    }
  }

  // ---- Looking up "\nName" finds the field at the start of a line ----

  /** The search text of the proxy: a line feed and a field name. */
  predicate SearchName(name: string) {
    name != "" && Inline(name) && NoColon(name)
  }

  /** A match of "\nName" starts with the line feed. */
  lemma MatchNeedsLineFeed(text: string, name: string, i: nat)
    requires SearchName(name) && MatchesAt(text, "\n" + name, i)
    ensures text[i] == '\n' && SameLetters(text[i + 1..i + 1 + |name|], name)
  {
    var needle := "\n" + name;
    var found := text[i..i + |needle|];
    assert found[0] == text[i] && needle[0] == '\n';
    assert Upper(found[0]) == Upper(needle[0]);
    forall j | 0 <= j < |name|
      ensures Upper(text[i + 1..i + 1 + |name|][j]) == Upper(name[j])
    {
      assert found[j + 1] == text[i + 1 + j] && needle[j + 1] == name[j];
      assert Upper(found[j + 1]) == Upper(needle[j + 1]);
    }
  }

  lemma LineFeedMakesMatch(text: string, name: string, i: nat)
    requires SearchName(name) && i + 1 + |name| < |text|
    requires text[i] == '\n' && SameLetters(text[i + 1..i + 1 + |name|], name)
    ensures MatchesAt(text, "\n" + name, i)
  {
    var needle := "\n" + name;
    var found := text[i..i + |needle|];
    forall j | 0 <= j < |needle|
      ensures Upper(found[j]) == Upper(needle[j])
    {
      if j > 0 {
        assert found[j] == text[i + 1..i + 1 + |name|][j - 1] && needle[j] == name[j - 1];
      }
    }
  }

  lemma PrefixInText(before: string, name: string, after: string, n: nat)
    requires n <= |name|
    ensures (before + "\n" + (name + after))[|before| + 1..|before| + 1 + n] == name[..n]
  {
  }

  /** At the start of a line, "\nName" matches exactly when the field's name begins with Name. */
  lemma MatchAtLine(before: string, f: (string, string), after: string, name: string)
    requires SearchName(name) && Inline(f.0) && NoColon(f.0)
    ensures var text := before + "\n" + (f.0 + ":" + f.1 + EOL + after);
      MatchesAt(text, "\n" + name, |before|) <==> Begins(f.0, name)
  {
    var text := before + "\n" + (f.0 + ":" + f.1 + EOL + after);
    var k := |before| + 1;
    if |name| <= |f.0| {
      PrefixInText(before, f.0, ":" + f.1 + EOL + after, |name|);
      assert text == before + "\n" + (f.0 + (":" + f.1 + EOL + after));
      if MatchesAt(text, "\n" + name, |before|) {
        MatchNeedsLineFeed(text, name, |before|);
      } else if Begins(f.0, name) {
        LineFeedMakesMatch(text, name, |before|);
      }
    } else if MatchesAt(text, "\n" + name, |before|) {
      assert text[k + |f.0|] == ':' && Upper(name[|f.0|]) != ':';
      MatchNeedsLineFeed(text, name, |before|);
    }
  }

  lemma {:induction false} SpacesThenValue(text: string, from: nat, end: nat)
    requires from <= end < |text| && text[end] != ' '
    ensures SpacesEnd(text, from) <= end && text[SpacesEnd(text, from)..end] == Trim(text[from..end])
    decreases end - from
  {
    if from < end && text[from] == ' ' {
      SpacesThenValue(text, from + 1, end);
      assert text[from..end][1..] == text[from + 1..end];
    }
  }

  lemma FindByte(text: string, c: char, from: nat, k: nat)
    requires from <= k < |text| && text[k] == c && forall i :: from <= i < k ==> text[i] != c
    ensures Find(text, [c], from) == Some(k)
  {
    forall i: nat | from <= i < k
      ensures !OccursAt(text, [c], i)
    {
      if OccursAt(text, [c], i) {
        OccursByte(text, [c], i, 0);
      }
    }
    FindIs(text, [c], from, k);
  }

  lemma FindLineEnd(text: string, from: nat, k: nat)
    requires from <= k && k + 2 <= |text| && text[k] == '\r' && text[k + 1] == '\n'
    requires forall i :: from <= i < k ==> text[i] != '\r'
    ensures Find(text, EOL, from) == Some(k)
  {
    forall i: nat | from <= i < k
      ensures !OccursAt(text, EOL, i)
    {
      if OccursAt(text, EOL, i) {
        OccursByte(text, EOL, i, 0);
      }
    }
    assert text[k..k + 2] == [text[k], text[k + 1]];
    FindIs(text, EOL, from, k);
  }

  /** From `at` on, `text` holds a field and the end of its line. */
  ghost predicate FieldAt(text: string, at: nat, f: (string, string)) {
    var colon := at + |f.0|;
    var end := colon + 1 + |f.1|;
    && end + 2 <= |text|
    && text[at..colon] == f.0 && text[colon] == ':'
    && text[colon + 1..end] == f.1 && text[end] == '\r' && text[end + 1] == '\n'
  }

  lemma LineIsAt(before: string, f: (string, string), after: string)
    ensures var text := before + "\n" + (f.0 + ":" + f.1 + EOL + after);
      text[|before|] == '\n' && FieldAt(text, |before| + 1, f)
  {
  }

  lemma BytesOfField(text: string, at: nat, f: (string, string))
    requires FieldAt(text, at, f) && Inline(f.0) && NoColon(f.0) && Inline(f.1)
    ensures forall i :: at <= i < at + 1 + |f.0| + |f.1| ==> text[i] != '\r' && text[i] != '\n'
    ensures forall i :: at <= i < at + |f.0| ==> text[i] != ':'
  {
    var colon := at + |f.0|;
    var end := colon + 1 + |f.1|;
    forall i | at <= i < end
      ensures text[i] != '\r' && text[i] != '\n' && (i < colon ==> text[i] != ':')
    {
      if i < colon {
        assert text[i] == text[at..colon][i - at];
      } else if i > colon {
        assert text[i] == text[colon + 1..end][i - colon - 1];
      }
    }
  }

  /** The value behind the first colon, when one stands before the end of the line. */
  function LineValue(s: string, at: nat): Option<string> {
    var end := Find(s, EOL, at);
    var colon := Find(s, ":", at);
    if end.Some? && colon.Some? && colon.value < end.value then Some(Trim(s[colon.value + 1..end.value])) else None
  }

  lemma ValueIsTrimmed(text: string, at: nat, end: nat, colon: nat)
    requires Find(text, EOL, at) == Some(end) && Find(text, ":", at) == Some(colon)
    ensures ValueBetween(text, colon, end) == if colon < end then Some(Trim(text[colon + 1..end])) else None
  {
    SizeOfValue(text, at, end, colon);
    if colon < end {
      FindGivesFirst(text, EOL, at);
      OccursByte(text, EOL, end, 0);
      SpacesThenValue(text, colon + 1, end);
    }
  }

  /** What `getHeaderField` returns is the value on the line of the match. */
  lemma FieldIsLineValue(text: string, field: string, at: nat)
    requires '\0' !in text && CaseFind(text, field, 0) == Some(at)
    ensures FieldOf(text, field) == LineValue(text, at)
  {
    NoNul(text);
    var end, colon := Find(text, EOL, at), Find(text, ":", at);
    if end.Some? && colon.Some? {
      ValueIsTrimmed(text, at, end.value, colon.value);
    }
  }

  /** The search starts at a field, or at the line feed before it. */
  ghost predicate SearchesField(text: string, at: nat, f: (string, string), name: nat) {
    && FieldAt(text, name, f) && Inline(f.0) && NoColon(f.0) && Inline(f.1)
    && (name == at || (name == at + 1 && text[at] == '\n'))
  }

  lemma ColonOfField(text: string, at: nat, f: (string, string), name: nat)
    requires SearchesField(text, at, f, name)
    ensures Find(text, ":", at) == Some(name + |f.0|)
  {
    BytesOfField(text, name, f);
    FindByte(text, ':', at, name + |f.0|);
  }

  lemma EndOfField(text: string, at: nat, f: (string, string), name: nat)
    requires SearchesField(text, at, f, name)
    ensures Find(text, EOL, at) == Some(name + |f.0| + 1 + |f.1|)
  {
    BytesOfField(text, name, f);
    FindLineEnd(text, at, name + |f.0| + 1 + |f.1|);
  }

  lemma LineValueOfField(text: string, at: nat, f: (string, string), name: nat)
    requires SearchesField(text, at, f, name)
    ensures LineValue(text, at) == Some(Trim(f.1))
  {
    ColonOfField(text, at, f, name);
    EndOfField(text, at, f, name);
  }

  /** The value of a matched field. */
  lemma ValueOfField(text: string, at: nat, f: (string, string), field: string, name: nat)
    requires SearchesField(text, at, f, name)
    requires '\0' !in text && CaseFind(text, field, 0) == Some(at)
    ensures FieldOf(text, field) == Some(Trim(f.1))
  {
    LineValueOfField(text, at, f, name);
    FieldIsLineValue(text, field, at);
  }

  /** No match begins inside a line. */
  lemma NoMatchInside(text: string, at: nat, f: (string, string), name: string)
    requires FieldAt(text, at, f) && Inline(f.0) && NoColon(f.0) && Inline(f.1) && SearchName(name)
    ensures forall i :: at <= i <= at + 1 + |f.0| + |f.1| ==> !MatchesAt(text, "\n" + name, i)
  {
    BytesOfField(text, at, f);
    forall i | at <= i <= at + 1 + |f.0| + |f.1|
      ensures !MatchesAt(text, "\n" + name, i)
    {
      if MatchesAt(text, "\n" + name, i) {
        MatchNeedsLineFeed(text, name, i);
      }
    }
  }

  /** A match of "\nName" does not go on with a carriage return. */
  lemma MatchStaysInLine(text: string, name: string, i: nat)
    requires SearchName(name) && MatchesAt(text, "\n" + name, i)
    ensures i + 1 < |text| && text[i + 1] != '\r'
  {
    MatchNeedsLineFeed(text, name, i);
    var found := text[i + 1..i + 1 + |name|];
    assert found[0] == text[i + 1] && Upper(found[0]) == Upper(name[0]);
  }

  /** The blank line that ends a header is no match. */
  lemma NoMatchAtBlankLine(before: string, name: string)
    requires SearchName(name)
    ensures forall i :: |before| <= i ==> !MatchesAt(before + "\n" + EOL, "\n" + name, i)
  {
    var text := before + "\n" + EOL;
    assert text[|before| + 1] == '\r';
    forall i | |before| <= i
      ensures !MatchesAt(text, "\n" + name, i)
    {
      if MatchesAt(text, "\n" + name, i) {
        MatchNeedsLineFeed(text, name, i);
        MatchStaysInLine(text, name, i);
      }
    }
  }

  lemma LineIsPassed(before: string, f: (string, string), after: string)
    ensures before + "\n" + (f.0 + ":" + f.1 + EOL + after) == before + "\n" + (f.0 + ":" + f.1 + "\r") + "\n" + after
  {
  }

  /** No match of the name begins before `n`. */
  ghost predicate NoMatchTo(text: string, name: string, n: nat) {
    forall i: nat :: i < n ==> !MatchesAt(text, "\n" + name, i)
  }

  lemma NothingIsLeft(before: string, name: string)
    requires SearchName(name) && '\0' !in before && NoMatchTo(before + "\n" + EOL, name, |before|)
    ensures FieldOf(before + "\n" + EOL, "\n" + name) == None
  {
    var text := before + "\n" + EOL;
    NoMatchAtBlankLine(before, name);
    CaseFindIs(text, "\n" + name, 0, None);
    NoNul(text);
  }

  lemma FieldIsHere(text: string, before: string, f: (string, string), after: string, name: string)
    requires text == before + "\n" + (f.0 + ":" + f.1 + EOL + after) && '\0' !in text
    requires SearchName(name) && Inline(f.0) && NoColon(f.0) && Inline(f.1) && Begins(f.0, name)
    requires NoMatchTo(text, name, |before|)
    ensures FieldOf(text, "\n" + name) == Some(Trim(f.1))
  {
    LineIsAt(before, f, after);
    MatchAtLine(before, f, after, name);
    CaseFindIs(text, "\n" + name, 0, Some(|before|));
    ValueOfField(text, |before|, f, "\n" + name, |before| + 1);
  }

  lemma FieldIsLater(text: string, before: string, f: (string, string), after: string, name: string)
    requires text == before + "\n" + (f.0 + ":" + f.1 + EOL + after)
    requires SearchName(name) && Inline(f.0) && NoColon(f.0) && Inline(f.1) && !Begins(f.0, name)
    requires NoMatchTo(text, name, |before|)
    ensures NoMatchTo(text, name, |before| + 1 + |f.0| + 1 + |f.1| + 1)
  {
    LineIsAt(before, f, after);
    MatchAtLine(before, f, after, name);
    NoMatchInside(text, |before| + 1, f, name);
  }

  /** Searching from the start of a line on. */
  lemma {:induction false} LookupFrom(before: string, fields: seq<(string, string)>, name: string)
    requires SearchName(name) && WellFormed(Header("", fields)) && '\0' !in before + "\n" + PrintFields(fields)
    requires NoMatchTo(before + "\n" + PrintFields(fields), name, |before|)
    ensures FieldOf(before + "\n" + PrintFields(fields), "\n" + name) == Lookup(fields, name)
    decreases |fields|
  {
    var text := before + "\n" + PrintFields(fields);
    if fields == [] {
      NothingIsLeft(before, name);
    } else {
      var f, after := fields[0], PrintFields(fields[1..]);
      if Begins(f.0, name) {
        FieldIsHere(text, before, f, after, name);
      } else {
        FieldIsLater(text, before, f, after, name);
        LineIsPassed(before, f, after);
        LookupFrom(before + "\n" + (f.0 + ":" + f.1 + "\r"), fields[1..], name);
      }
    }
  }

  /**
   On a well-formed header, `getHeaderField(header, "\nName")` returns the value, without its leading
   spaces, of the first field whose name begins with Name, and NULL if there is none.
   */
  lemma LookupFinds(h: Header, name: string)
    requires WellFormed(h) && SearchName(name)
    ensures FieldOf(Print(h), "\n" + name) == Lookup(h.fields, name)
  {
    var before := h.start + "\r";
    assert Print(h) == before + "\n" + PrintFields(h.fields);
    PrintIsText(h);
    forall i: nat | i < |before|
      ensures !MatchesAt(Print(h), "\n" + name, i)
    {
      if MatchesAt(Print(h), "\n" + name, i) {
        MatchNeedsLineFeed(Print(h), name, i);
      }
    }
    LookupFrom(before, h.fields, name);
  }

  // ---- The status code ----

  /** The part of the header that is copied for parsing: at most 100 bytes of the C string. */
  function StatusText(header: string): string {
    CString(if |header| > 100 then header[..100] else header)
  }

  /**
   The number between the first two spaces. The copy is parsed together with what is left behind
   it in the buffer. Without two spaces the C code reads outside its buffer.
   */
  function StatusOf(header: string): Option<int> {
    StatusIn(StatusText(header))
  }

  function StatusIn(text: string): Option<int> {
    var first := Find(text, " ", 0);
    if first.None? then None else
    var second := Find(text, " ", first.value + 1);
    if second.None? then None else
    var token := text[first.value + 1..second.value];
    Some(Atoi(token + text[|token|..]))
  }

  lemma SpaceIs(text: string, from: nat, k: nat)
    requires from <= k <= |text| && (k < |text| ==> text[k] == ' ') && forall i :: from <= i < k ==> text[i] != ' '
    ensures Find(text, " ", from) == if k < |text| then Some(k) else None
  {
    if k < |text| {
      FindByte(text, ' ', from, k);
    } else {
      FindGivesFirst(text, " ", from);
      var r := Find(text, " ", from);
      if r.Some? {
        OccursByte(text, " ", r.value, 0);
      }
    }
  }

  /** The position of the first space from `from` on, or the length: `strchr` and the loop test. */
  method NextSpace(text: string, from: nat) returns (ptr: nat)
    requires from <= |text|
    ensures from <= ptr <= |text| && Find(text, " ", from) == if ptr < |text| then Some(ptr) else None
  {
    ptr := from;
    while ptr < |text| && text[ptr] != ' '
      invariant from <= ptr <= |text| && forall i :: from <= i < ptr ==> text[i] != ' '
    {
      ptr := ptr + 1;
    }
    SpaceIs(text, from, ptr);
  }

  /** The bytes of `text` from `from` on have been copied over its first `i` bytes. */
  ghost predicate Moved(text: string, now: string, from: nat, i: nat) {
    && |now| == |text| && from + i <= |text|
    && (forall j :: 0 <= j < i ==> now[j] == text[from + j])
    && forall j :: i <= j < |text| ==> now[j] == text[j]
  }

  lemma MoveOne(text: string, now: string, from: nat, i: nat)
    requires Moved(text, now, from, i) && from + i < |text|
    ensures now[from + i] == text[from + i]
    ensures Moved(text, now[i := text[from + i]], from, i + 1)
  {
  }

  lemma MovedIs(text: string, now: string, from: nat, i: nat)
    requires Moved(text, now, from, i)
    ensures var token := text[from..from + i]; now == token + text[|token|..]
  {
  }

  lemma StatusIs(text: string, now: string, first: nat, ptr: nat)
    requires Find(text, " ", 0) == Some(first) && Find(text, " ", first + 1) == Some(ptr)
    requires first + 1 <= ptr && Moved(text, now, first + 1, ptr - first - 1)
    ensures StatusIn(text) == Some(Atoi(now))
  {
    MovedIs(text, now, first + 1, ptr - first - 1);
  }

  ghost predicate NoSpaceFrom(text: string, from: nat, ptr: nat) {
    from <= ptr <= |text| && forall j :: from <= j < ptr ==> text[j] != ' '
  }

  /** Copies the bytes from `ptr` up to the next space to the front of the same buffer. */
  method MoveToken(buffer: array<char>, from: nat) returns (i: nat, ptr: nat)
    requires 0 < from <= buffer.Length
    modifies buffer
    ensures from <= ptr <= buffer.Length && i == ptr - from
    ensures Find(old(buffer[..]), " ", from) == if ptr < buffer.Length then Some(ptr) else None
    ensures Moved(old(buffer[..]), buffer[..], from, i)
  {
    ghost var text := buffer[..];
    i, ptr := 0, from;
    while ptr < buffer.Length && buffer[ptr] != ' '
      invariant NoSpaceFrom(text, from, ptr) && i == ptr - from
      invariant Moved(text, buffer[..], from, i)
    {
      ghost var now := buffer[..];
      MoveOne(text, now, from, i);
      buffer[i] := buffer[ptr];
      assert buffer[..] == now[i := text[ptr]];
      i, ptr := i + 1, ptr + 1;
    }
    if ptr < buffer.Length {
      MoveOne(text, buffer[..], from, i);
    }
    SpaceIs(text, from, ptr);
  }

  method GetStatusCode(header: string) returns (r: Option<int>)
    ensures r == StatusOf(header)
  {
    var text := StatusText(header);
    var first := NextSpace(text, 0);
    if first == |text| {
      return None;
    }
    r := ParseCode(text, first);
  }

  /** The end of `getStatusCode`: a copy, moved and parsed. */
  method ParseCode(text: string, first: nat) returns (r: Option<int>)
    requires first < |text| && Find(text, " ", 0) == Some(first)
    ensures r == StatusIn(text)
  {
    var buffer := CopyOf(text);
    var _, ptr := MoveToken(buffer, first + 1);
    if ptr == buffer.Length {
      return None;
    }
    StatusIs(text, buffer[..], first, ptr);
    r := Some(Atoi(buffer[..]));
  }

  method CopyOf(text: string) returns (buffer: array<char>)
    ensures fresh(buffer) && buffer[..] == text
  {
    buffer := new char[|text|](i requires 0 <= i < |text| => text[i]);
  }

  /** The body length that a header announces: -1 when unknown, nothing when C leaves it undefined. */
  function BodyLength(header: string): Option<int> {
    match FieldOf(header, "Content-Length")
    case Some(value) => Some(Atoi(value))
    case None =>
      match StatusOf(header)
      case Some(code) => Some(if code == 200 then -1 else 0)
      case None => None
  }
}
