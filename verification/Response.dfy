/**
 The response that functions/sendResponse.c prints, and what its readers make of it.
 */
module Response {
  import opened CText
  import opened HeaderFields
  import opened Wire
  import opened Receive

  const LENGTH_FIELD := "Content-Length"
  const HEADER_BUFFER := 9999   // sizeof(header) - 1

  datatype Response = Response(status: nat, title: string, headers: string, mime: string, body: string)

  /** The status line without its end. */
  function StatusLine(r: Response): string {
    PROTOCOL + " " + Digits(r.status) + " " + r.title + " "
  }

  function LengthLine(r: Response): string {
    LENGTH_FIELD + ": " + Digits(|r.body|) + " "
  }

  function TypeLine(r: Response): string {
    "Content-Type: " + r.mime + " "
  }

  /** The header of sendResponse.c:30. */
  function PrintHeader(r: Response): string {
    StatusLine(r) + (EOL + r.headers) + LengthLine(r) + EOL + TypeLine(r) + EOL + EOL
  }

  /** The whole message. */
  function Message(r: Response): string {
    PrintHeader(r) + r.body
  }

  /** What snprintf leaves of a text in a buffer of `size` bytes. */
  function Printed(text: string, size: nat): (r: string)
    requires size > 0
    ensures r <= text && (if |text| < size then |r| == |text| else |r| == size - 1)
  {
    if |text| < size then text else text[..size - 1]
  }

  /** A field's name is at `i`, in any case of letters. */
  predicate NamedAt(s: string, name: string, i: nat) {
    i + |name| <= |s| && SameLetters(s[i..i + |name|], name)
  }

  /** No Content-Length anywhere in `s`. */
  ghost predicate Lengthless(s: string) {
    forall i: nat :: !NamedAt(s, LENGTH_FIELD, i)
  }

  /** Nothing that the caller passes ends the header early. */
  ghost predicate Framed(r: Response) {
    && Inline(r.title) && '\0' !in r.headers && Inline(r.mime)
    && forall i: nat :: !OccursAt(EOL + r.headers, BLANK_LINE, i)
  }

  /** What the caller of `sendResponse` must pass. */
  ghost predicate Printable(r: Response) {
    && Framed(r) && Lengthless(r.title) && Lengthless(r.headers)
    && |PrintHeader(r)| < HEADER_BUFFER && |r.body| < INT_LIMIT
  }

  /** What is sent: the header as far as its buffer holds it, and the body. */
  function Sent(r: Response): string {
    Printed(PrintHeader(r), HEADER_BUFFER) + r.body
  }

  /** The socket branch of `sendResponse`: header, then body, as far as the connection takes them. */
  method SendResponse(r: Response, s: Socket)
    requires |r.body| < INT_LIMIT
    modifies s`sent, s`cuts, s`room
    ensures s.sent == old(s.sent) + Taken(old(s.room), Sent(r))
    ensures s.room == RoomAfter(old(s.room), |Sent(r)|)
  {
    var header := Printed(PrintHeader(r), HEADER_BUFFER);
    TakenTwice(s.room, header, r.body);
    Associates(s.sent, Taken(s.room, header), Taken(RoomAfter(s.room, |header|), r.body));
    var _, _ := SendAll(s, header);
    var _, _ := SendAll(s, r.body);
  }

  const SERVER_NAME := "Squinn!"
  const SERVER_URL := "http://www.magsolweb.net"

  function ErrorPage(status: nat, title: string, text: string): string {
    Printed("<html><head><title>" + Digits(status) + " " + title + "</title></head>\n<body bgcolor=\"#CC9999\"><h4>"
            + Digits(status) + " " + title + "</h4>\n" + text + "<hr><address><a href=\"" + SERVER_URL + "\">"
            + SERVER_NAME + "</a></address>\n</body></html>\n", HEADER_BUFFER)
  }

  /** The response of `sendError`. */
  function ErrorResponse(status: nat, title: string, headers: string, text: string): Response {
    Response(status, title, headers, "text/html", ErrorPage(status, title, text))
  }

  // ---- The blank line ----

  lemma DigitsAreInline(n: nat)
    ensures Inline(Digits(n))
  {
  }

  lemma LinesAreInline(r: Response)
    requires Framed(r)
    ensures Inline(StatusLine(r)) && Inline(LengthLine(r)) && Inline(TypeLine(r))
    ensures '\0' !in PrintHeader(r)
  {
    DigitsAreInline(r.status);
    DigitsAreInline(|r.body|);
  }

  /** A blank line cannot begin in a line, */
  lemma NoBlankInLine(line: string, after: string, i: nat)
    requires Inline(line) && i < |line|
    ensures !OccursAt(line + after, BLANK_LINE, i)
  {
    if OccursAt(line + after, BLANK_LINE, i) {
      OccursByte(line + after, BLANK_LINE, i, 0);
    }
  }

  /** nor reach from `block` into a line. */
  lemma NoBlankAcross(block: string, line: string, after: string, i: nat)
    requires Inline(line) && line != "" && i < |block| && forall k: nat :: !OccursAt(block, BLANK_LINE, k)
    ensures !OccursAt(block + (line + after), BLANK_LINE, i)
  {
    var text := block + (line + after);
    if OccursAt(text, BLANK_LINE, i) {
      if i + 4 <= |block| {
        OccursInSum(block, line + after, BLANK_LINE, i);
      } else {
        assert text[|block|] == line[0];
        OccursByte(text, BLANK_LINE, i, |block| - i);
      }
    }
  }

  lemma NoBlankInEnd(line: string, after: string, i: nat)
    requires Inline(line) && line != "" && i < 2
    ensures !OccursAt(EOL + (line + after), BLANK_LINE, i)
  {
    var text := EOL + (line + after);
    if OccursAt(text, BLANK_LINE, i) {
      assert text[2] == line[0];
      OccursByte(text, BLANK_LINE, i, 2 - i);
    }
  }

  lemma RegroupMessage(a: string, b: string, c: string, d: string, body: string)
    ensures a + b + c + EOL + d + EOL + EOL + body == a + (b + (c + (EOL + (d + (EOL + EOL + body)))))
  {
  }

  lemma MessageLayout(r: Response)
    ensures Message(r)
            == StatusLine(r) + ((EOL + r.headers) + (LengthLine(r) + (EOL + (TypeLine(r) + (EOL + EOL + r.body)))))
  {
    RegroupMessage(StatusLine(r), EOL + r.headers, LengthLine(r), TypeLine(r), r.body);
  }

  lemma EndsInBlank(front: string, body: string)
    ensures (front + EOL + EOL + body)[|front|..|front| + 4] == BLANK_LINE
  {
  }

  /** The first blank line of the message is the end of its header. */
  lemma HeaderEndsAtBlank(r: Response)
    requires Framed(r)
    ensures HeaderEnd(Message(r)) == Some(|PrintHeader(r)|)
  {
    LinesAreInline(r);
    var a, b, c, d := StatusLine(r), EOL + r.headers, LengthLine(r), TypeLine(r);
    var text := Message(r);
    var end := |PrintHeader(r)| - 4;
    var tail := EOL + EOL + r.body;
    MessageLayout(r);
    EndsInBlank(a + b + c + EOL + d, r.body);
    forall i: nat | i < end
      ensures !OccursAt(text, BLANK_LINE, i)
    {
      NoBlankBefore(a, b, c, d, tail, i);
    }
    FindIs(text, BLANK_LINE, 0, end);
  }

  lemma NoBlankBefore(a: string, b: string, c: string, d: string, tail: string, i: nat)
    requires Inline(a) && Inline(c) && Inline(d) && c != "" && d != ""
    requires forall k: nat :: !OccursAt(b, BLANK_LINE, k)
    requires i < |a| + |b| + |c| + 2 + |d|
    ensures !OccursAt(a + (b + (c + (EOL + (d + tail)))), BLANK_LINE, i)
  {
    var t4 := EOL + (d + tail);
    var t3 := c + t4;
    var t2 := b + t3;
    var text := a + t2;
    if i < |a| {
      NoBlankInLine(a, t2, i);
    } else {
      OccursInSum(a, t2, BLANK_LINE, i);
      var j := i - |a|;
      if j < |b| {
        NoBlankAcross(b, c, t4, j);
      } else {
        OccursInSum(b, t3, BLANK_LINE, j);
        NoBlankLater(c, d, tail, j - |b|);
      }
    }
  }

  lemma NoBlankLater(c: string, d: string, tail: string, i: nat)
    requires Inline(c) && Inline(d) && d != "" && i < |c| + 2 + |d|
    ensures !OccursAt(c + (EOL + (d + tail)), BLANK_LINE, i)
  {
    var t4 := EOL + (d + tail);
    if i < |c| {
      NoBlankInLine(c, t4, i);
    } else {
      OccursInSum(c, t4, BLANK_LINE, i);
      var j := i - |c|;
      if j < 2 {
        NoBlankInEnd(d, tail, j);
      } else {
        OccursInSum(EOL, d + tail, BLANK_LINE, j);
        NoBlankInLine(d, tail, j - 2);
      }
    }
  }

  // ---- The Content-Length field ----

  /** The letters of the field's name, in any case. */
  predicate FieldLetter(c: char) {
    var u := Upper(c);
    u == 'C' || u == 'O' || u == 'N' || u == 'T' || u == 'E' || u == '-' || u == 'L' || u == 'G' || u == 'H'
  }

  lemma MatchHasFieldLetters(text: string, i: nat, j: nat)
    requires MatchesAt(text, LENGTH_FIELD, i) && j < |LENGTH_FIELD|
    ensures FieldLetter(text[i + j]) && (Upper(text[i + j]) == 'C' ==> j == 0)
    ensures j == 0 ==> Upper(text[i]) == 'C'
  {
    var found := text[i..i + |LENGTH_FIELD|];
    assert found[j] == text[i + j] && Upper(found[j]) == Upper(LENGTH_FIELD[j]);
  }

  lemma SliceOfBlock(before: string, block: string, after: string, i: nat)
    requires |before| <= i && i + |LENGTH_FIELD| <= |before| + |block|
    ensures (before + block + after)[i..i + |LENGTH_FIELD|] == block[i - |before|..i - |before| + |LENGTH_FIELD|]
  {
  }

  /** No match begins in `block` when a byte that is in no name, or the field's own 'C', follows it. */
  lemma NoMatchInBlock(before: string, block: string, after: string, i: nat)
    requires |before| <= i < |before| + |block| && !NamedAt(block, LENGTH_FIELD, i - |before|)
    requires after != "" && (!FieldLetter(after[0]) || Upper(after[0]) == 'C')
    ensures !MatchesAt(before + block + after, LENGTH_FIELD, i)
  {
    var text := before + block + after;
    var k := |before| + |block|;
    if i + |LENGTH_FIELD| <= k {
      SliceOfBlock(before, block, after, i);
    } else if MatchesAt(text, LENGTH_FIELD, i) {
      MatchHasFieldLetters(text, i, k - i);
    }
  }

  lemma NoMatchAtByte(text: string, i: nat)
    requires i < |text| && !FieldLetter(text[i])
    ensures !MatchesAt(text, LENGTH_FIELD, i)
  {
    if MatchesAt(text, LENGTH_FIELD, i) {
      MatchHasFieldLetters(text, i, 0);
    }
  }

  lemma ShortIsLengthless(s: string)
    requires |s| < |LENGTH_FIELD| || forall i :: 0 <= i < |s| ==> !FieldLetter(s[i])
    ensures Lengthless(s)
  {
    forall i: nat
      ensures !NamedAt(s, LENGTH_FIELD, i)
    {
      if i + |LENGTH_FIELD| <= |s| {
        assert s[i..i + |LENGTH_FIELD|][0] == s[i];
        assert Upper(LENGTH_FIELD[0]) == 'C';
      }
    }
  }

  lemma NoMatchBeforeField(r: Response, block: string, after: string, i: nat)
    requires Lengthless(r.title) && Lengthless(block) && after != "" && Upper(after[0]) == 'C'
    requires i < |StatusLine(r)| + 2 + |block|
    ensures !MatchesAt(StatusLine(r) + EOL + block + after, LENGTH_FIELD, i)
  {
    var a := StatusLine(r);
    var text := a + EOL + block + after;
    if i < |a| {
      assert text == a + (EOL + block + after);
      NoMatchInStatusLine(r, EOL + block + after, i);
    } else if i < |a| + 2 {
      assert text[i] == EOL[i - |a|];
      NoMatchAtByte(text, i);
    } else {
      NoMatchInBlock(a + EOL, block, after, i);
    }
  }

  /** A field with the name in any case, behind a block without it, is the first match. */
  lemma FirstFieldIs(r: Response, block: string, name: string, after: string)
    requires Lengthless(r.title) && Lengthless(block) && SameLetters(name, LENGTH_FIELD) && after != ""
    ensures CaseFind(StatusLine(r) + EOL + block + (name + after), LENGTH_FIELD, 0)
            == Some(|StatusLine(r) + EOL + block|)
  {
    var before := StatusLine(r) + EOL + block;
    var text := before + (name + after);
    assert (name + after)[0] == name[0] && Upper(name[0]) == Upper(LENGTH_FIELD[0]) == 'C';
    forall i: nat | i < |before|
      ensures !MatchesAt(text, LENGTH_FIELD, i)
    {
      NoMatchBeforeField(r, block, name + after, i);
    }
    FieldMatches(before, name, after);
    CaseFindIs(text, LENGTH_FIELD, 0, Some(|before|));
  }

  lemma FieldMatches(before: string, name: string, after: string)
    requires after != "" && SameLetters(name, LENGTH_FIELD)
    ensures MatchesAt(before + (name + after), LENGTH_FIELD, |before|)
  {
    var text := before + (name + after);
    assert text[|before|..|before| + |LENGTH_FIELD|] == name;
  }

  /** In the printed header, the first match is the field itself. */
  lemma FieldIsFirst(r: Response)
    requires Lengthless(r.title) && Lengthless(r.headers)
    ensures CaseFind(PrintHeader(r), LENGTH_FIELD, 0) == Some(|BeforeField(r)|)
  {
    HeaderAroundField(r);
    FirstFieldIs(r, r.headers, LENGTH_FIELD, ": " + Digits(|r.body|) + " " + EOL + TypeLine(r) + EOL + EOL);
  }

  function BeforeField(r: Response): string {
    StatusLine(r) + EOL + r.headers
  }

  function FromField(r: Response): string {
    LENGTH_FIELD + (": " + Digits(|r.body|) + " " + EOL + TypeLine(r) + EOL + EOL)
  }

  lemma RegroupHeader(a: string, headers: string, name: string, number: string, d: string)
    ensures a + (EOL + headers) + (name + ": " + number + " ") + EOL + d + EOL + EOL
            == a + EOL + headers + (name + (": " + number + " " + EOL + d + EOL + EOL))
  {
  }

  lemma HeaderAroundField(r: Response)
    ensures PrintHeader(r) == BeforeField(r) + FromField(r)
  {
    RegroupHeader(StatusLine(r), r.headers, LENGTH_FIELD, Digits(|r.body|), TypeLine(r));
  }

  /** Protocol and status code, with the spaces after them. */
  function StatusStart(r: Response): string {
    PROTOCOL + " " + Digits(r.status) + " "
  }

  lemma NoMatchInStart(r: Response, after: string, i: nat)
    requires i < |StatusStart(r)|
    ensures !MatchesAt(StatusStart(r) + after, LENGTH_FIELD, i)
  {
    var text := StatusStart(r) + after;
    if i < |PROTOCOL| {
      ShortIsLengthless(PROTOCOL);
      assert text == "" + PROTOCOL + (" " + Digits(r.status) + " " + after);
      NoMatchInBlock("", PROTOCOL, " " + Digits(r.status) + " " + after, i);
    } else if |PROTOCOL| < i < |PROTOCOL| + 1 + |Digits(r.status)| {
      assert text[i] == Digits(r.status)[i - |PROTOCOL| - 1];
      NoMatchAtByte(text, i);
    } else {
      assert text[i] == ' ';
      NoMatchAtByte(text, i);
    }
  }

  lemma NoMatchInStatusLine(r: Response, after: string, i: nat)
    requires Lengthless(r.title) && i < |StatusLine(r)|
    ensures !MatchesAt(StatusLine(r) + after, LENGTH_FIELD, i)
  {
    var start := StatusStart(r);
    var text := StatusLine(r) + after;
    if i < |start| {
      assert text == start + (r.title + " " + after);
      NoMatchInStart(r, r.title + " " + after, i);
    } else if i < |start| + |r.title| {
      assert text == start + r.title + (" " + after);
      NoMatchInBlock(start, r.title, " " + after, i);
    } else {
      assert text[i] == ' ';
      NoMatchAtByte(text, i);
    }
  }

  lemma FieldFollows(before: string, value: string, after: string)
    ensures FieldAt(before + (LENGTH_FIELD + (": " + value + EOL + after)), |before|, (LENGTH_FIELD, " " + value))
  {
  }

  lemma LengthFieldAt(r: Response)
    ensures FieldAt(PrintHeader(r), |BeforeField(r)|, (LENGTH_FIELD, " " + (Digits(|r.body|) + " ")))
  {
    var value := Digits(|r.body|) + " ";
    var after := TypeLine(r) + EOL + EOL;
    HeaderAroundField(r);
    assert FromField(r) == LENGTH_FIELD + (": " + value + EOL + after);
    FieldFollows(BeforeField(r), value, after);
  }

  /** A reader whose first match is the field takes the length of the body. */
  lemma OwnFieldIsRead(r: Response)
    requires Framed(r) && CaseFind(PrintHeader(r), LENGTH_FIELD, 0) == Some(|BeforeField(r)|)
    ensures BodyLength(PrintHeader(r)) == Some(|r.body|)
  {
    var value := Digits(|r.body|) + " ";
    LinesAreInline(r);
    LengthFieldAt(r);
    LengthIsInline(|r.body|);
    ValueOfField(PrintHeader(r), |BeforeField(r)|, (LENGTH_FIELD, " " + value), LENGTH_FIELD, |BeforeField(r)|);
    assert (" " + value)[1..] == value;
    AtoiOfDigits(|r.body|, " ");
  }

  /** The announced length is the length of the body. */
  lemma HeaderAnnouncesBody(r: Response)
    requires Printable(r)
    ensures BodyLength(PrintHeader(r)) == Some(|r.body|)
  {
    FieldIsFirst(r);
    OwnFieldIsRead(r);
  }

  lemma LengthIsInline(n: nat)
    ensures Inline(LENGTH_FIELD) && NoColon(LENGTH_FIELD) && Inline(" " + (Digits(n) + " "))
  {
    DigitsAreInline(n);
  }

  // ---- Reading the response back ----

  /** Whatever the cuts, the header is read exactly and announces the body. */
  lemma ResponseIsScanned(r: Response, cuts: seq<nat>, breaks: bool)
    requires Printable(r)
    ensures var p := Incoming(Message(r), cuts, breaks);
      && HeaderOf(p) == Received(Some(PrintHeader(r)), |PrintHeader(r)|, Some(|r.body|))
      && AfterHeader(p) == Incoming(r.body, Drop(cuts, |PrintHeader(r)|), breaks)
  {
    HeaderEndsAtBlank(r);
    HeaderAnnouncesBody(r);
    assert Message(r)[..|PrintHeader(r)|] == PrintHeader(r);
    assert Message(r)[|PrintHeader(r)|..] == r.body;
  }

  /**
   `recvAll` on what `sendResponse` emits returns exactly the message with both lengths, for every
   chunking, when the peer sends nothing after the body (sections 4.2, 6, 7.2.2 and 10.4 of RFC 1945).
   */
  lemma ResponseRoundTrip(r: Response, cuts: seq<nat>, breaks: bool)
    requires Printable(r)
    ensures FetchOf(Incoming(Message(r), cuts, breaks)) == Fetched(Message(r), |PrintHeader(r)|, |r.body|)
    ensures CountOf(Incoming(Message(r), cuts, breaks)) == Counted(|Message(r)|, |r.body|)
  {
    ResponseIsScanned(r, cuts, breaks);
    var p := AfterHeader(Incoming(Message(r), cuts, breaks));
    CollectTakesAll(p, |r.body|, false, "");
    assert "" + r.body == r.body;
    if r.body == "" {
      assert Message(r) == PrintHeader(r);
    }
  }

  // ---- A field among the extra headers ----

  lemma NameIsInline(name: string)
    requires SameLetters(name, LENGTH_FIELD)
    ensures Inline(name) && NoColon(name)
  {
    forall i | 0 <= i < |name|
      ensures name[i] != '\r' && name[i] != '\n' && name[i] != '\0' && name[i] != ':'
    {
      assert Upper(name[i]) == Upper(LENGTH_FIELD[i]);
    }
  }

  /** `r` has the extra header `name: value` after `pre`, where `name` is "Content-Length" in any case. */
  ghost predicate Announces(r: Response, pre: string, name: string, value: string, post: string) {
    && r.headers == pre + (name + (":" + value + EOL + post))
    && Lengthless(pre) && SameLetters(name, LENGTH_FIELD) && Inline(value)
  }

  lemma ExtraFieldAt(r: Response, pre: string, name: string, value: string, post: string)
    requires Announces(r, pre, name, value, post)
    ensures var before, rest := StatusLine(r) + EOL + pre, ":" + value + EOL + (post + FromField(r));
      PrintHeader(r) == before + (name + rest) && FieldAt(PrintHeader(r), |before|, (name, value))
  {
    HeaderAroundField(r);
    RegroupExtra(StatusLine(r) + EOL, pre, name, ":" + value + EOL, post, FromField(r));
    FieldIsThere(StatusLine(r) + EOL + pre, name, value, post + FromField(r));
  }

  lemma RegroupExtra(a: string, pre: string, name: string, value: string, post: string, rest: string)
    ensures a + (pre + (name + (value + post))) + rest == a + pre + (name + (value + (post + rest)))
  {
  }

  lemma FieldIsThere(before: string, name: string, value: string, after: string)
    ensures FieldAt(before + (name + (":" + value + EOL + after)), |before|, (name, value))
  {
  }

  /**
   A Content-Length among the extra headers wins over the real one: the body length that every reader
   takes is its number, so it is right exactly when that number is.
   */
  lemma ExtraHeaderWins(r: Response, pre: string, name: string, value: string, post: string)
    requires Framed(r) && Lengthless(r.title) && Announces(r, pre, name, value, post)
    ensures BodyLength(PrintHeader(r)) == Some(Atoi(Trim(value)))
  {
    var before := StatusLine(r) + EOL + pre;
    LinesAreInline(r);
    NameIsInline(name);
    ExtraFieldAt(r, pre, name, value, post);
    FirstFieldIs(r, pre, name, ":" + value + EOL + (post + FromField(r)));
    ValueOfField(PrintHeader(r), |before|, (name, value), LENGTH_FIELD, |before|);
  }

  /** The redirect that server.c:404-405 sends for a directory, with any body. */
  function Redirect(path: string, body: string): Response {
    Response(302, "Found", "Location: " + path + "/" + EOL, "text/html", body)
  }

  /** One extra header line makes no blank line. */
  lemma OneLineMakesNoBlank(line: string, i: nat)
    requires Inline(line) && line != ""
    ensures !OccursAt(EOL + (line + EOL), BLANK_LINE, i)
  {
    if i < 2 {
      NoBlankInEnd(line, EOL, i);
    } else {
      OccursInSum(EOL, line + EOL, BLANK_LINE, i);
      if i - 2 < |line| {
        NoBlankInLine(line, EOL, i - 2);
      }
    }
  }

  lemma RedirectIsFramed(path: string, body: string)
    requires Inline(path)
    ensures Framed(Redirect(path, body))
  {
    var line := "Location: " + path + "/";
    assert Inline(line);
    forall i: nat
      ensures !OccursAt(EOL + (line + EOL), BLANK_LINE, i)
    {
      OneLineMakesNoBlank(line, i);
    }
  }

  lemma RedirectAnnouncesNothing(body: string)
    ensures BodyLength(PrintHeader(Redirect("/content-length:0", body))) == Some(0)
  {
    var r := Redirect("/content-length:0", body);
    RedirectIsFramed("/content-length:0", body);
    ShortIsLengthless(r.title);
    ShortIsLengthless("Location: /");
    assert r.headers == "Location: /" + ("content-length" + (":" + "0/" + EOL + ""));
    ExtraHeaderWins(r, "Location: /", "content-length", "0/", "");
    ZeroIsRead();
  }

  lemma ZeroIsRead()
    ensures Atoi(Trim("0/")) == 0
  {
    assert "0/" == Digits(0) + "/";
    AtoiOfDigits(0, "/");
  }

  /** An input on which the round trip fails: the redirect arrives without its body, whatever the body is. */
  lemma RedirectLosesBody(body: string, cuts: seq<nat>, breaks: bool)
    ensures var r := Redirect("/content-length:0", body);
      FetchOf(Incoming(Message(r), cuts, breaks)) == Fetched(PrintHeader(r), |PrintHeader(r)|, 0)
  {
    RedirectIsFramed("/content-length:0", body);
    RedirectAnnouncesNothing(body);
    NothingIsFetched(Redirect("/content-length:0", body), cuts, breaks);
  }

  lemma NothingIsFetched(r: Response, cuts: seq<nat>, breaks: bool)
    requires Framed(r) && BodyLength(PrintHeader(r)) == Some(0)
    ensures FetchOf(Incoming(Message(r), cuts, breaks)) == Fetched(PrintHeader(r), |PrintHeader(r)|, 0)
  {
    HeaderEndsAtBlank(r);
    assert Message(r)[..|PrintHeader(r)|] == PrintHeader(r);
  }
}
