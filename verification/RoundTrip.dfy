/**
 Exactly when a printed response is read back: for every title and every extra headers that are framed.
 */
module RoundTrip {
  import opened CText
  import opened HeaderFields
  import opened Wire
  import opened Receive
  import opened Response

  /** What `recvAll` should return. */
  function Whole(r: Response): Fetched {
    Fetched(Message(r), |PrintHeader(r)|, |r.body|)
  }

  lemma HeaderIsText(r: Response)
    requires Framed(r)
    ensures '\0' !in PrintHeader(r)
  {
    LinesAreInline(r);
  }

  lemma FramedIsScanned(r: Response, cuts: seq<nat>, breaks: bool)
    requires Framed(r)
    ensures var p := Incoming(Message(r), cuts, breaks);
      && HeaderOf(p) == Received(Some(PrintHeader(r)), |PrintHeader(r)|, BodyLength(PrintHeader(r)))
      && AfterHeader(p) == Incoming(r.body, Drop(cuts, |PrintHeader(r)|), breaks)
  {
    HeaderEndsAtBlank(r);
    assert Message(r)[..|PrintHeader(r)|] == PrintHeader(r);
    assert Message(r)[|PrintHeader(r)|..] == r.body;
  }

  /** With the header scanned, the body decides. */
  lemma FetchIs(r: Response, cuts: seq<nat>, breaks: bool)
    requires Framed(r)
    ensures var header, n := PrintHeader(r), BodyLength(PrintHeader(r));
      FetchOf(Incoming(Message(r), cuts, breaks))
      == if n.None? then LengthUndefined
         else FetchBody(header, |header|, n.value, Incoming(r.body, Drop(cuts, |header|), breaks))
  {
    FramedIsScanned(r, cuts, breaks);
  }

  /** A length that covers the body gives the message, if the peer closes or the length is exact. */
  lemma CoveredBody(header: string, body: string, cuts: seq<nat>, breaks: bool, n: int)
    requires n >= |body| && (breaks ==> n == |body|)
    ensures FetchBody(header, |header|, n, Incoming(body, cuts, breaks)) == Fetched(header + body, |header|, |body|)
  {
    CollectTakesAll(Incoming(body, cuts, breaks), n, false, "");
    assert "" + body == body;
    assert body == "" ==> header + body == header;
  }

  /** One too small does not when the bytes come one at a time. */
  lemma ShortBody(header: string, body: string, cuts: seq<nat>, breaks: bool, n: int)
    requires n < |body| && |cuts| >= |body| && forall i :: 0 <= i < |cuts| ==> cuts[i] == 1
    ensures FetchBody(header, |header|, n, Incoming(body, cuts, breaks)) != Fetched(header + body, |header|, |body|)
  {
    if n > 0 {
      CollectOnes(Incoming(body, cuts, breaks), n, "");
    } else {
      assert |header + body| == |header| + |body|;
    }
  }

  /** One too large does not when the connection breaks. */
  lemma LongBody(header: string, body: string, cuts: seq<nat>, n: int)
    requires n > |body|
    ensures FetchBody(header, |header|, n, Incoming(body, cuts, true)) == Null
  {
    CollectTakesAll(Incoming(body, cuts, true), n, false, "");
  }

  /** What is fetched is no longer than what was sent. */
  lemma FetchIsShort(p: Incoming)
    ensures FetchOf(p).Fetched? ==> |FetchOf(p).data| <= |p.data|
  {
    var h := HeaderOf(p);
    if h.bodyLength.Some? {
      CollectTakesPrefix(AfterHeader(p), h.bodyLength.value, false, "");
    }
  }

  /** A header that does not fit its buffer is cut, and the message with it. */
  lemma CutIsNotWhole(r: Response, cuts: seq<nat>, breaks: bool)
    requires |PrintHeader(r)| >= HEADER_BUFFER
    ensures FetchOf(Incoming(Sent(r), cuts, breaks)) != Whole(r)
  {
    FetchIsShort(Incoming(Sent(r), cuts, breaks));
    assert |Sent(r)| < |Message(r)|;
  }

  lemma MessageIsSent(r: Response)
    requires |PrintHeader(r)| < HEADER_BUFFER
    ensures Sent(r) == Message(r)
  {
  }

  /** Every chunking gives the message, when the peer closes after it. */
  ghost predicate ArrivesWhole(r: Response) {
    forall cuts :: FetchOf(Incoming(Sent(r), cuts, false)) == Whole(r)
  }

  /** Every chunking gives the message, even when the connection breaks after it. */
  ghost predicate ArrivesWholeAnyway(r: Response) {
    forall cuts, breaks :: FetchOf(Incoming(Sent(r), cuts, breaks)) == Whole(r)
  }

  /**
   For every framed response, `recvAll` on what is sent returns exactly the message for every chunking
   if and only if the header fits its buffer and the announced length covers the body, when the peer
   closes after it, and if and only if the length is exact, when the connection may also break.
   */
  lemma RoundTripIsExact(r: Response)
    requires Framed(r) && |r.body| < INT_LIMIT
    ensures var n, fits := BodyLength(PrintHeader(r)), |PrintHeader(r)| < HEADER_BUFFER;
      && (ArrivesWhole(r) <==> fits && n.Some? && n.value >= |r.body|)
      && (ArrivesWholeAnyway(r) <==> fits && n == Some(|r.body|))
  {
    if |PrintHeader(r)| >= HEADER_BUFFER {
      CutIsNotWhole(r, [], false);
    } else {
      MessageIsSent(r);
      CoveredArrives(r);
      UncoveredDoesNotArrive(r);
    }
  }

  lemma CoveredArrives(r: Response)
    requires Framed(r) && Sent(r) == Message(r)
    ensures var n := BodyLength(PrintHeader(r));
      && (n.Some? && n.value >= |r.body| ==> ArrivesWhole(r))
      && (n == Some(|r.body|) ==> ArrivesWholeAnyway(r))
  {
    var n := BodyLength(PrintHeader(r));
    forall cuts, breaks | n.Some? && n.value >= |r.body| && (breaks ==> n.value == |r.body|)
      ensures FetchOf(Incoming(Sent(r), cuts, breaks)) == Whole(r)
    {
      FetchIs(r, cuts, breaks);
      CoveredBody(PrintHeader(r), r.body, Drop(cuts, |PrintHeader(r)|), breaks, n.value);
    }
  }

  lemma UncoveredDoesNotArrive(r: Response)
    requires Framed(r) && Sent(r) == Message(r)
    ensures var n := BodyLength(PrintHeader(r));
      && (n.None? || n.value < |r.body| ==> !ArrivesWhole(r) && !ArrivesWholeAnyway(r))
      && (n.Some? && n.value > |r.body| ==> !ArrivesWholeAnyway(r))
  {
    var n, header := BodyLength(PrintHeader(r)), PrintHeader(r);
    if n.None? || n.value < |r.body| {
      var ones := seq(|Message(r)|, _ => 1);
      FetchIs(r, ones, false);
      if n.Some? {
        ShortBody(header, r.body, Drop(ones, |header|), false, n.value);
      }
      assert FetchOf(Incoming(Sent(r), ones, false)) != Whole(r);
    } else if n.value > |r.body| {
      FetchIs(r, [], true);
      LongBody(header, r.body, Drop([], |header|), n.value);
      assert FetchOf(Incoming(Sent(r), [], true)) != Whole(r);
    }
  }

  // ---- The announced length, from what the caller passes ----

  /** The first place at which a name stands, in any case of letters. */
  function FirstNamed(s: string, name: string, from: nat): (r: Option<nat>)
    ensures r.Some? ==> from <= r.value && NamedAt(s, name, r.value)
    decreases |s| - from
  {
    if from >= |s| then None else if NamedAt(s, name, from) then Some(from) else FirstNamed(s, name, from + 1)
  }

  lemma {:induction false} FirstNamedIsFirst(s: string, name: string, from: nat, i: nat)
    requires from <= i < |s| && (FirstNamed(s, name, from).Some? ==> i < FirstNamed(s, name, from).value)
    ensures !NamedAt(s, name, i)
    decreases |s| - from
  {
    if from < i {
      FirstNamedIsFirst(s, name, from + 1, i);
    }
  }

  lemma {:induction false} FirstNamedIs(s: string, name: string, from: nat, k: nat)
    requires from <= k < |s| && NamedAt(s, name, k) && forall i: nat :: from <= i < k ==> !NamedAt(s, name, i)
    ensures FirstNamed(s, name, from) == Some(k)
    decreases k - from
  {
    if from < k {
      FirstNamedIs(s, name, from + 1, k);
    }
  }

  /** Extra headers are whole lines. */
  predicate WholeLines(headers: string) {
    headers == "" || (|headers| >= 2 && headers[|headers| - 2..] == EOL)
  }

  /** Title and extra headers, as they stand in the message. */
  function Block(r: Response): string {
    r.title + " " + EOL + r.headers
  }

  /** The length that a caller's title and extra headers make the message announce. */
  function Announced(r: Response): int {
    match FirstNamed(Block(r), LENGTH_FIELD, 0)
    case None => |r.body|
    case Some(i) =>
      match LineValue(Block(r), i)
      case Some(value) => Atoi(value)
      case None => if r.status == 200 then -1 else 0
  }

  lemma HeaderAroundBlock(r: Response)
    ensures PrintHeader(r) == StatusStart(r) + Block(r) + FromField(r)
  {
    HeaderAroundField(r);
  }

  /** Where the first match is: at the first name in the middle part, or else where the last part begins. */
  function FirstPlace(before: string, block: string, name: string): nat {
    |before| + if FirstNamed(block, name, 0).Some? then FirstNamed(block, name, 0).value else |block|
  }

  predicate StartsWith(s: string, name: string) {
    name != "" && name < s
  }

  lemma MatchAtPlace(text: string, before: string, block: string, after: string, name: string)
    requires text == before + block + after && StartsWith(after, name)
    ensures MatchesAt(text, name, FirstPlace(before, block, name))
  {
    var at := FirstPlace(before, block, name);
    if FirstNamed(block, name, 0).Some? {
      SliceInMiddle(before, block, after, at - |before|, at - |before| + |name|);
    } else {
      assert text[at..at + |name|] == after[..|name|] == name;
    }
  }

  lemma NoMatchBeforePlace(text: string, before: string, block: string, after: string, i: nat)
    requires text == before + block + after && StartsWith(after, LENGTH_FIELD)
    requires |before| <= i < FirstPlace(before, block, LENGTH_FIELD)
    ensures !MatchesAt(text, LENGTH_FIELD, i)
  {
    assert after[0] == LENGTH_FIELD[0];
    FirstNamedIsFirst(block, LENGTH_FIELD, 0, i - |before|);
    NoMatchInBlock(before, block, after, i);
  }

  lemma OccursInMiddle(before: string, block: string, after: string, pattern: string, i: nat)
    requires i + |pattern| <= |block|
    ensures OccursAt(before + block + after, pattern, |before| + i) <==> OccursAt(block, pattern, i)
  {
    OccursInSum(before + block, after, pattern, |before| + i);
    OccursInSum(before, block, pattern, |before| + i);
  }

  /** What is found in the middle part is found in the whole. */
  lemma {:induction false} FindInMiddle(before: string, block: string, after: string, pattern: string, from: nat)
    requires Find(block, pattern, from).Some?
    ensures Find(before + block + after, pattern, |before| + from) == Some(|before| + Find(block, pattern, from).value)
    decreases |block| - from
  {
    OccursInMiddle(before, block, after, pattern, from);
    if !OccursAt(block, pattern, from) {
      FindInMiddle(before, block, after, pattern, from + 1);
    }
  }

  /** A byte that the middle part lacks is not found in it. */
  lemma FindBeyond(before: string, block: string, after: string, c: char, from: nat)
    requires from <= |block| && Find(block, [c], from) == None
    ensures match Find(before + block + after, [c], |before| + from)
      case Some(k) => k >= |before| + |block|
      case None => true
  {
    var text := before + block + after;
    var found := Find(text, [c], |before| + from);
    FindGivesFirst(block, [c], from);
    FindGivesFirst(text, [c], |before| + from);
    if found.Some? && found.value < |before| + |block| {
      OccursInSum(before + block, after, [c], found.value);
      OccursInSum(before, block, [c], found.value);
    }
  }

  /** What precedes the end of the middle part lies on a line that ends in it. */
  lemma NameHasLineEnd(block: string, at: nat)
    requires at <= |block| - 2 && EndsLine(block)
    ensures Find(block, EOL, at).Some?
  {
    FindGivesFirst(block, EOL, at);
    assert OccursAt(block, EOL, |block| - 2);
  }

  lemma LineValueInMiddle(before: string, block: string, after: string, at: nat)
    requires at <= |block| && Find(block, EOL, at).Some?
    ensures LineValue(before + block + after, |before| + at) == LineValue(block, at)
  {
    FindInMiddle(before, block, after, EOL, at);
    if Find(block, ":", at).Some? {
      FindInMiddle(before, block, after, ":", at);
      SliceInMiddle(before, block, after, Find(block, ":", at).value + 1, Find(block, EOL, at).value);
    } else {
      FindBeyond(before, block, after, ':', at);
    }
  }

  lemma SliceInMiddle(before: string, block: string, after: string, from: nat, to: nat)
    requires from <= |block| && to <= |block|
    ensures from <= to ==> (before + block + after)[|before| + from..|before| + to] == block[from..to]
  {
  }

  // ---- The status code, for a field without a value ----

  lemma {:induction false} NumberGrows(s: string, n: nat)
    ensures Number(s, n) >= n
    decreases |s|
  {
    if s != "" && IsDigit(s[0]) {
      NumberGrows(s[1..], 10 * n + (s[0] as int - '0' as int));
    }
  }

  /** The copied code, with what the copy leaves behind it, reads as 200 exactly for the status 200. */
  lemma CodeIsRead(status: nat, text: string)
    requires |Digits(status)| <= |text| && PROTOCOL <= text
    ensures Atoi(Digits(status) + text[|Digits(status)|..]) == 200 <==> status == 200
  {
    var d := |Digits(status)|;
    var rest := text[d..];
    NumberOfDigits(status, rest);
    NumberGrows(rest, status);
    assert Digits(status) + rest != "" && (Digits(status) + rest)[0] == Digits(status)[0];
    assert Atoi(Digits(status) + rest) == Number(rest, status);
    if status < 1000 {
      assert Power(3) == 1000;
      DigitsAreFew(status, 3, 1000);
      assert rest[0] == PROTOCOL[d];
    }
  }

  lemma FirstSpaces(status: nat, text: string)
    requires PROTOCOL + " " + Digits(status) + " " <= text
    ensures var d := |Digits(status)|;
      Find(text, " ", 0) == Some(8) && Find(text, " ", 9) == Some(9 + d) && text[9..9 + d] == Digits(status)
  {
    var d := |Digits(status)|;
    var start := PROTOCOL + " " + Digits(status) + " ";
    assert forall i :: 0 <= i < |start| ==> text[i] == start[i];
    assert forall i :: 9 <= i < 9 + d ==> text[i] == Digits(status)[i - 9];
    FindByte(text, ' ', 0, 8);
    FindByte(text, ' ', 9, 9 + d);
  }

  /** The copy for parsing keeps at least the front of the header that fits. */
  lemma FrontIsCopied(header: string, start: string)
    requires '\0' !in header && start <= header && |start| <= 100
    ensures start <= StatusText(header)
  {
    NoNul(if |header| > 100 then header[..100] else header);
  }

  lemma StatusIsRead(header: string, status: nat)
    requires status < INT_LIMIT && '\0' !in header && PROTOCOL + " " + Digits(status) + " " <= header
    ensures StatusOf(header).Some? && (StatusOf(header).value == 200 <==> status == 200)
  {
    IntHasTenDigits(status);
    FrontIsCopied(header, PROTOCOL + " " + Digits(status) + " ");
    FirstSpaces(status, StatusText(header));
    CodeIsRead(status, StatusText(header));
  }

  // ---- The condition on title and extra headers ----

  lemma BlockIsWhole(r: Response)
    requires WholeLines(r.headers)
    ensures EndsLine(Block(r))
  {
    if r.headers != "" {
      assert Block(r)[|Block(r)| - 2..] == r.headers[|r.headers| - 2..];
    }
  }

  predicate EndsLine(s: string) {
    |s| >= 2 && s[|s| - 2..] == EOL
  }

  /** A name in the middle part, where the first match is, gives the value on its line. */
  lemma FieldInMiddle(text: string, before: string, block: string, after: string, name: string, at: nat)
    requires text == before + block + after && '\0' !in text && EndsLine(block) && at <= |block| - 2
    requires CaseFind(text, name, 0) == Some(|before| + at)
    ensures FieldOf(text, name) == LineValue(block, at)
  {
    MiddleLineValue(text, before, block, after, at);
    FieldIsLineValue(text, name, |before| + at);
  }

  lemma MiddleLineValue(text: string, before: string, block: string, after: string, at: nat)
    requires text == before + block + after && EndsLine(block) && at <= |block| - 2
    ensures LineValue(text, |before| + at) == LineValue(block, at)
  {
    NameHasLineEnd(block, at);
    LineValueInMiddle(before, block, after, at);
  }

  /** What a caller passes determines the length that every reader takes. */
  lemma HeaderAnnounces(r: Response)
    requires Framed(r) && WholeLines(r.headers) && r.status < INT_LIMIT
    ensures BodyLength(PrintHeader(r)) == Some(Announced(r))
  {
    if FirstNamed(Block(r), LENGTH_FIELD, 0).Some? {
      NamedAnnounces(r, FirstNamed(Block(r), LENGTH_FIELD, 0).value);
    } else {
      UnnamedAnnounces(r);
    }
  }

  lemma LengthStartsRest(r: Response)
    ensures StartsWith(FromField(r), LENGTH_FIELD)
  {
  }

  lemma NoMatchInHeader(r: Response, i: nat)
    requires i < FirstPlace(StatusStart(r), Block(r), LENGTH_FIELD)
    ensures !MatchesAt(PrintHeader(r), LENGTH_FIELD, i)
  {
    HeaderAroundBlock(r);
    if i < |StatusStart(r)| {
      Associates(StatusStart(r), Block(r), FromField(r));
      NoMatchInStart(r, Block(r) + FromField(r), i);
    } else {
      LengthStartsRest(r);
      NoMatchBeforePlace(PrintHeader(r), StatusStart(r), Block(r), FromField(r), i);
    }
  }

  lemma MatchInHeader(r: Response)
    ensures MatchesAt(PrintHeader(r), LENGTH_FIELD, FirstPlace(StatusStart(r), Block(r), LENGTH_FIELD))
  {
    HeaderAroundBlock(r);
    LengthStartsRest(r);
    MatchAtPlace(PrintHeader(r), StatusStart(r), Block(r), FromField(r), LENGTH_FIELD);
  }

  /** The place of the first match in the printed header. */
  lemma FirstMatchOfHeader(r: Response, place: nat)
    requires place == FirstPlace(StatusStart(r), Block(r), LENGTH_FIELD)
    ensures CaseFind(PrintHeader(r), LENGTH_FIELD, 0) == Some(place)
  {
    forall i: nat | i < place
      ensures !MatchesAt(PrintHeader(r), LENGTH_FIELD, i)
    {
      NoMatchInHeader(r, i);
    }
    MatchInHeader(r);
    CaseFindIs(PrintHeader(r), LENGTH_FIELD, 0, Some(place));
  }

  /** A name in title or extra headers gives the value on its line. */
  lemma NamedField(r: Response, at: nat, place: nat)
    requires '\0' !in PrintHeader(r) && WholeLines(r.headers) && at <= |Block(r)| - 2 && place == |StatusStart(r)| + at
    requires CaseFind(PrintHeader(r), LENGTH_FIELD, 0) == Some(place)
    ensures FieldOf(PrintHeader(r), LENGTH_FIELD) == LineValue(Block(r), at)
  {
    HeaderAroundBlock(r);
    BlockIsWhole(r);
    FieldInMiddle(PrintHeader(r), StatusStart(r), Block(r), FromField(r), LENGTH_FIELD, at);
  }

  lemma StatusOfHeader(r: Response)
    requires r.status < INT_LIMIT && '\0' !in PrintHeader(r)
    ensures StatusOf(PrintHeader(r)).Some? && (StatusOf(PrintHeader(r)).value == 200 <==> r.status == 200)
  {
    HeaderAroundBlock(r);
    StatusIsRead(PrintHeader(r), r.status);
  }

  lemma FieldOfHeader(r: Response, at: nat, place: nat)
    requires '\0' !in PrintHeader(r) && WholeLines(r.headers) && at <= |Block(r)| - 2 && place == |StatusStart(r)| + at
    requires place == FirstPlace(StatusStart(r), Block(r), LENGTH_FIELD)
    ensures FieldOf(PrintHeader(r), LENGTH_FIELD) == LineValue(Block(r), at)
  {
    FirstMatchOfHeader(r, place);
    NamedField(r, at, place);
  }

  lemma NamedAnnounces(r: Response, at: nat)
    requires Framed(r) && WholeLines(r.headers) && r.status < INT_LIMIT
    requires FirstNamed(Block(r), LENGTH_FIELD, 0) == Some(at)
    ensures BodyLength(PrintHeader(r)) == Some(Announced(r))
  {
    HeaderIsText(r);
    FieldOfHeader(r, at, |StatusStart(r)| + at);
    StatusOfHeader(r);
  }

  lemma UnnamedAnnounces(r: Response)
    requires Framed(r) && FirstNamed(Block(r), LENGTH_FIELD, 0) == None
    ensures BodyLength(PrintHeader(r)) == Some(|r.body|)
  {
    FirstMatchOfHeader(r, |BeforeField(r)|);
    OwnFieldIsRead(r);
  }

  /**
   For every status, title, extra header lines, mime and body that make a header which fits its buffer:
   `recvAll` returns exactly the message for every chunking if and only if the first Content-Length in
   title and extra headers, if there is one, has a number that covers the body (and none at all counts
   as 0, or as -1 for status 200).
   */
  lemma ExtraHeadersDecide(r: Response)
    requires Framed(r) && WholeLines(r.headers) && r.status < INT_LIMIT && |r.body| < INT_LIMIT
    ensures ArrivesWhole(r) <==> |PrintHeader(r)| < HEADER_BUFFER && Announced(r) >= |r.body|
    ensures ArrivesWholeAnyway(r) <==> |PrintHeader(r)| < HEADER_BUFFER && Announced(r) == |r.body|
  {
    HeaderAnnounces(r);
    RoundTripIsExact(r);
  }

  /** A name without a value on its line hides the real length as well: this directory's redirect has no body. */
  lemma NamelessRedirectLosesBody(body: string, cuts: seq<nat>, breaks: bool)
    ensures var r := Redirect("/content-length", body);
      FetchOf(Incoming(Message(r), cuts, breaks)) == Fetched(PrintHeader(r), |PrintHeader(r)|, 0)
  {
    var r := Redirect("/content-length", body);
    RedirectIsFramed("/content-length", body);
    RedirectHasLines("/content-length", body);
    NamelessAnnounces(r);
    HeaderAnnounces(r);
    NothingIsFetched(r, cuts, breaks);
  }

  lemma RedirectHasLines(path: string, body: string)
    ensures WholeLines(Redirect(path, body).headers)
  {
  }

  const REDIRECT_FRONT := "Found " + EOL + "Location: /"

  lemma NamelessAnnounces(r: Response)
    requires r.title == "Found" && r.headers == "Location: " + "/content-length" + "/" + EOL && r.status == 302
    ensures Announced(r) == 0
  {
    NamelessIsNamed(r);
    NamelessHasNoValue(r);
  }

  lemma NamelessIsNamed(r: Response)
    requires r.title == "Found" && r.headers == "Location: " + "/content-length" + "/" + EOL
    ensures FirstNamed(Block(r), LENGTH_FIELD, 0) == Some(|REDIRECT_FRONT|)
  {
    NamelessBlock(r);
    NamedAfterFront("content-length", "/" + EOL);
  }

  lemma NamelessHasNoValue(r: Response)
    requires r.title == "Found" && r.headers == "Location: " + "/content-length" + "/" + EOL
    ensures LineValue(Block(r), |REDIRECT_FRONT|) == None
  {
    NamelessBlock(r);
    NoColonAfter(REDIRECT_FRONT, "content-length" + ("/" + EOL));
  }

  lemma NamelessBlock(r: Response)
    requires r.title == "Found" && r.headers == "Location: " + "/content-length" + "/" + EOL
    ensures Block(r) == REDIRECT_FRONT + ("content-length" + ("/" + EOL))
  {
  }

  lemma NamedAfterFront(name: string, rest: string)
    requires SameLetters(name, LENGTH_FIELD)
    ensures FirstNamed(REDIRECT_FRONT + (name + rest), LENGTH_FIELD, 0) == Some(|REDIRECT_FRONT|)
  {
    forall i: nat | i < |REDIRECT_FRONT|
      ensures !NamedAt(REDIRECT_FRONT + (name + rest), LENGTH_FIELD, i)
    {
      NotNamedInFront(name + rest, i);
    }
    PartInMiddle(REDIRECT_FRONT, name, rest);
    FirstNamedIs(REDIRECT_FRONT + (name + rest), LENGTH_FIELD, 0, |REDIRECT_FRONT|);
  }

  /** No 'C' is followed by an 'O' there. */
  lemma NotNamedInFront(rest: string, i: nat)
    requires i < |REDIRECT_FRONT|
    ensures !NamedAt(REDIRECT_FRONT + rest, LENGTH_FIELD, i)
  {
    var text := REDIRECT_FRONT + rest;
    if i + |LENGTH_FIELD| <= |text| {
      var part := text[i..i + |LENGTH_FIELD|];
      assert part[0] == REDIRECT_FRONT[i];
      assert i + 1 < |REDIRECT_FRONT| ==> part[1] == REDIRECT_FRONT[i + 1];
      assert Upper(LENGTH_FIELD[0]) == 'C' && Upper(LENGTH_FIELD[1]) == 'O';
    }
  }

  lemma PartInMiddle(a: string, b: string, c: string)
    ensures (a + (b + c))[|a|..|a| + |b|] == b
  {
  }

  lemma NoColonAfter(front: string, rest: string)
    requires NoColon(rest)
    ensures LineValue(front + rest, |front|) == None
  {
    var text := front + rest;
    FindGivesFirst(text, ":", |front|);
    if Find(text, ":", |front|).Some? {
      OccursByte(text, ":", Find(text, ":", |front|).value, 0);
    }
  }
}
