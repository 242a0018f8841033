/**
 What a reader finds in a printed response besides its length: the status line, the status code, and
 the value of every field, the type of the body among them.
 */
module ResponseFields {
  import opened CText
  import opened HeaderFields
  import opened Wire
  import opened Receive
  import opened Response
  import RoundTrip

  // ---- The fields ----

  /** Extra headers, as lines. */
  function Lines(fields: seq<(string, string)>): string {
    if fields == [] then ""
    else fields[0].0 + ":" + fields[0].1 + EOL + Lines(fields[1..])
  }

  /** The fields that `sendResponse` adds. */
  function OwnFields(r: Response): seq<(string, string)> {
    [("Content-Length", " " + Digits(|r.body|) + " "), ("Content-Type", " " + r.mime + " ")]
  }

  lemma {:induction false} PrintFieldsOfSum(a: seq<(string, string)>, b: seq<(string, string)>)
    ensures PrintFields(a + b) == Lines(a) + PrintFields(b)
  {
    if a == [] {
      assert a + b == b;
      assert Lines(a) + PrintFields(b) == PrintFields(b);
    } else {
      PrintFieldsOfSum(a[1..], b);
      assert (a + b)[1..] == a[1..] + b;
      Associates(a[0].0 + ":" + a[0].1 + EOL, Lines(a[1..]), PrintFields(b));
    }
  }

  lemma OwnFieldsArePrinted(r: Response)
    ensures PrintFields(OwnFields(r)) == LengthLine(r) + EOL + (TypeLine(r) + EOL + EOL)
  {
    var length, kind := OwnFields(r)[0], OwnFields(r)[1];
    assert OwnFields(r) == [length, kind];
    TwoFieldsArePrinted(length, kind);
    assert LENGTH_FIELD + ": " == "Content-Length" + (":" + " ");
    assert "Content-Type: " == "Content-Type" + (":" + " ");
    FieldRegroups("Content-Length", ":", " ", Digits(|r.body|), " ");
    FieldRegroups("Content-Type", ":", " ", r.mime, " ");
  }

  lemma TwoFieldsArePrinted(f: (string, string), g: (string, string))
    ensures PrintFields([f, g]) == f.0 + ":" + f.1 + EOL + (g.0 + ":" + g.1 + EOL + EOL)
  {
    assert [f, g][1..] == [g] && [g][1..] == [];
    assert PrintFields([g]) == g.0 + ":" + g.1 + EOL + EOL;
  }

  lemma FieldRegroups(name: string, colon: string, a: string, value: string, b: string)
    ensures name + colon + (a + value + b) == name + (colon + a) + value + b
  {
  }

  /** The printed header is a start line and the fields, those of the caller first. */
  lemma HeaderIsFields(r: Response, extra: seq<(string, string)>)
    requires r.headers == Lines(extra)
    ensures PrintHeader(r) == Print(Header(StatusLine(r), extra + OwnFields(r)))
  {
    PrintFieldsOfSum(extra, OwnFields(r));
    OwnFieldsArePrinted(r);
    HeaderRegroups(StatusLine(r), EOL, Lines(extra), LengthLine(r), TypeLine(r));
  }

  lemma HeaderRegroups(start: string, e: string, extra: string, length: string, kind: string)
    ensures start + (e + extra) + length + e + kind + e + e == start + e + (extra + (length + e + (kind + e + e)))
  {
  }

  lemma OwnFieldsAreWellFormed(r: Response, extra: seq<(string, string)>)
    requires Inline(r.title) && Inline(r.mime) && WellFormed(Header("", extra))
    ensures WellFormed(Header(StatusLine(r), extra + OwnFields(r)))
  {
    DigitsAreInline(r.status);
    DigitsAreInline(|r.body|);
    var fields := extra + OwnFields(r);
    forall i | 0 <= i < |fields|
      ensures Inline(fields[i].0) && NoColon(fields[i].0) && Inline(fields[i].1)
    {
      if i < |extra| {
        assert fields[i] == extra[i];
      }
    }
  }

  /**
   Whatever extra fields a caller adds: asking a printed response for a field gives the value of the first
   field of that name, those of the caller before the length and the type of the body.
   */
  lemma FieldsComeBack(r: Response, extra: seq<(string, string)>, name: string)
    requires Inline(r.title) && Inline(r.mime) && WellFormed(Header("", extra)) && r.headers == Lines(extra)
    requires SearchName(name)
    ensures FieldOf(PrintHeader(r), "\n" + name) == Lookup(extra + OwnFields(r), name)
  {
    HeaderIsFields(r, extra);
    OwnFieldsAreWellFormed(r, extra);
    LookupFinds(Header(StatusLine(r), extra + OwnFields(r)), name);
  }

  /** Without extra fields, the type is the caller's, with the space that is printed behind it. */
  lemma TypeComesBack(r: Response)
    requires Inline(r.title) && Inline(r.mime) && r.mime != "" && r.mime[0] != ' ' && r.headers == ""
    ensures FieldOf(PrintHeader(r), "\nContent-Type") == Some(r.mime + " ")
  {
    assert "\n" + "Content-Type" == "\nContent-Type";
    FieldsComeBack(r, [], "Content-Type");
    assert [] + OwnFields(r) == OwnFields(r);
    OtherName();
    TrimsOne(r.mime);
  }

  lemma OtherName()
    ensures !Begins("Content-Length", "Content-Type") && Begins("Content-Type", "Content-Type")
  {
    assert "Content-Length"[..12][8] == 'L' && "Content-Type"[8] == 'T';
    assert "Content-Type"[..12] == "Content-Type";
  }

  lemma TrimsOne(value: string)
    requires value != "" && value[0] != ' '
    ensures Trim(" " + value + " ") == value + " "
  {
    assert (" " + value + " ")[1..] == value + " ";
  }

  // ---- The status line ----

  /** The first line is protocol, status and title. */
  lemma StatusLineIs(r: Response)
    requires Inline(r.title)
    ensures StatusLine(r) == "HTTP/1.0 " + Digits(r.status) + " " + r.title + " "
    ensures Find(PrintHeader(r), EOL, 0) == Some(|StatusLine(r)|) && PrintHeader(r)[..|StatusLine(r)|] == StatusLine(r)
  {
    assert PROTOCOL + " " == "HTTP/1.0 ";
    DigitsAreInline(r.status);
    StartsWithLine(StatusLine(r), EOL, r.headers, LengthLine(r), TypeLine(r), PrintHeader(r));
    FindLineEnd(PrintHeader(r), 0, |StatusLine(r)|);
  }

  lemma StartsWithLine(line: string, e: string, headers: string, length: string, kind: string, text: string)
    requires text == line + (e + headers) + length + e + kind + e + e && e == EOL && Inline(line)
    ensures |line| + 2 <= |text| && text[..|line|] == line && text[|line|] == '\r' && text[|line| + 1] == '\n'
    ensures forall i :: 0 <= i < |line| ==> text[i] == line[i]
  {
  }

  /**
   `getStatusCode` on a printed header gives the status back exactly when it does not have 5, 7, 9 or 10
   digits: then the byte left behind the copied number is a digit too.
   */
  lemma StatusComesBack(r: Response)
    requires r.status < INT_LIMIT && '\0' !in PrintHeader(r)
    ensures StatusOf(PrintHeader(r)).Some?
    ensures StatusOf(PrintHeader(r)) == Some(r.status) <==> |Digits(r.status)| !in {5, 7, 9, 10}
  {
    var start := PROTOCOL + " " + Digits(r.status) + " ";
    var text := StatusText(PrintHeader(r));
    RoundTrip.HeaderAroundBlock(r);
    IntHasTenDigits(r.status);
    RoundTrip.FrontIsCopied(PrintHeader(r), start);
    RoundTrip.FirstSpaces(r.status, text);
    CodeComesBack(r.status, text);
  }

  lemma CodeComesBack(status: nat, text: string)
    requires |Digits(status)| <= 10 && PROTOCOL + " " + Digits(status) + " " <= text
    ensures Atoi(Digits(status) + text[|Digits(status)|..]) == status <==> |Digits(status)| !in {5, 7, 9, 10}
  {
    var d := |Digits(status)|;
    var rest := text[d..];
    LeftBehind(status, text);
    NumberOfDigits(status, rest);
    assert Atoi(Digits(status) + rest) == Number(rest, status) by {
      assert (Digits(status) + rest)[0] == Digits(status)[0];
    }
    if d in {5, 7, 9, 10} {
      StatusIsLarge(status);
      NumberOfDigitGrows(rest, status);
    }
  }

  /** The byte that is left behind the copy. */
  lemma LeftBehind(status: nat, text: string)
    requires 1 <= |Digits(status)| <= 10 && PROTOCOL + " " + Digits(status) + " " <= text
    ensures IsDigit(text[|Digits(status)|]) <==> |Digits(status)| in {5, 7, 9, 10}
  {
    var start := PROTOCOL + " " + Digits(status) + " ";
    var d := |Digits(status)|;
    assert text[d] == start[d];
    if d < 8 {
      assert start[d] == PROTOCOL[d];
    } else if d > 8 {
      assert start[d] == Digits(status)[d - 9];
    }
  }

  lemma StatusIsLarge(status: nat)
    requires |Digits(status)| > 1
    ensures status > 0
  {
  }

  lemma NumberOfDigitGrows(s: string, n: nat)
    requires s != "" && IsDigit(s[0]) && n > 0
    ensures Number(s, n) > n
  {
    RoundTrip.NumberGrows(s[1..], 10 * n + (s[0] as int - '0' as int));
  }

  /** A header of 9,999 bytes or more is cut to 9,998, and the body follows it. */
  lemma HeaderIsCut(r: Response)
    ensures Sent(r) == (if |PrintHeader(r)| < 9_999 then PrintHeader(r) else PrintHeader(r)[..9_998]) + r.body
  {
  }

  /** Only the first 100 bytes are looked at for the status: it is found exactly if they hold two spaces. */
  lemma StatusNeedsTwoSpaces(header: string)
    requires '\0' !in header
    ensures StatusOf(header).Some? <==>
            exists i, j :: 0 <= i < j < |header| && j < 100 && header[i] == ' ' && header[j] == ' '
  {
    var text := StatusText(header);
    TextIsFront(header);
    SpacesAreFound(text);
    if i, j :| 0 <= i < j < |header| && j < 100 && header[i] == ' ' && header[j] == ' ' {
      assert text[i] == ' ' && text[j] == ' ';
    }
    if i, j :| 0 <= i < j < |text| && text[i] == ' ' && text[j] == ' ' {
      assert header[i] == ' ' && header[j] == ' ';
    }
  }

  lemma TextIsFront(header: string)
    requires '\0' !in header
    ensures StatusText(header) == if |header| > 100 then header[..100] else header
  {
    NoNul(if |header| > 100 then header[..100] else header);
  }

  lemma SpacesAreFound(text: string)
    ensures StatusIn(text).Some? <==> exists i, j :: 0 <= i < j < |text| && text[i] == ' ' && text[j] == ' '
  {
    var first := Find(text, " ", 0);
    FindsByte(text, ' ', 0);
    if first.Some? {
      FindsByte(text, ' ', first.value + 1);
      if Find(text, " ", first.value + 1).Some? {
        assert text[first.value] == ' ' && text[Find(text, " ", first.value + 1).value] == ' ';
      }
    }
  }

  lemma FindsByte(text: string, c: char, from: nat)
    ensures match Find(text, [c], from)
      case Some(k) => k < |text| && text[k] == c && forall i :: from <= i < k ==> text[i] != c
      case None => forall i :: from <= i < |text| ==> text[i] != c
  {
    FindGivesFirst(text, [c], from);
    forall i | 0 <= i < |text|
      ensures OccursAt(text, [c], i) <==> text[i] == c
    {
      assert text[i..i + 1] == [text[i]];
    }
  }
}
