/**
 Receiving a message from a socket: headers/recvAll.c, and the forwarding loop of
 functions/xmlrpc.c without compression.
 */
module Receive {
  import opened CText
  import opened HeaderFields
  import opened Wire

  const BLANK_LINE := "\r\n\r\n"
  const BUFFER := 19999   // sizeof(inputBuffer) - 1

  // ---- The header ----

  /** What `recvHeader` returns and stores; no body length when C leaves it undefined. */
  datatype Received = Received(header: Option<string>, headerLength: nat, bodyLength: Option<int>)

  /** The length of the shortest prefix that ends in a blank line. */
  function HeaderEnd(data: string): (r: Option<nat>)
    ensures r.Some? ==> 4 <= r.value <= |data|
  {
    match Find(data, BLANK_LINE, 0)
    case Some(k) => Some(k + 4)
    case None => None
  }

  function Drop(cuts: seq<nat>, n: nat): seq<nat> {
    if n >= |cuts| then [] else cuts[n..]
  }

  /** The peer after `n` bytes have been received one at a time. */
  function Skip(p: Incoming, n: nat): Incoming
    requires n <= |p.data|
  {
    Incoming(p.data[n..], Drop(p.cuts, n), p.breaks)
  }

  function HeaderOf(p: Incoming): Received {
    match HeaderEnd(p.data)
    case Some(k) => Received(Some(p.data[..k]), k, BodyLength(p.data[..k]))
    case None => Received(if p.breaks || p.data == "" then None else Some(p.data), |p.data|, Some(0))
  }

  function AfterHeader(p: Incoming): Incoming {
    match HeaderEnd(p.data)
    case Some(k) => Skip(p, k)
    case None => Skip(p, |p.data|)
  }

  /** The window holds the last four bytes, the newest first. */
  ghost predicate IsWindow(window: seq<char>, data: string, pos: nat) {
    && |window| == 4 && pos <= |data|
    && forall j :: 0 <= j < 4 ==> window[j] == if j < pos then data[pos - 1 - j] else '\0'
  }

  /** `strstr(inputChar, "\n\r\n\r")` finds the reversed delimiter exactly after a blank line. */
  lemma WindowShowsBlankLine(window: seq<char>, data: string, pos: nat)
    requires IsWindow(window, data, pos)
    ensures Find(CString(window), "\n\r\n\r", 0).Some? <==> pos >= 4 && OccursAt(data, BLANK_LINE, pos - 4)
  {
    var text := CString(window);
    FindGivesFirst(text, "\n\r\n\r", 0);
    if Find(text, "\n\r\n\r", 0).Some? {
      assert text == window && text[0..4] == window;
      assert pos >= 4;
      assert data[pos - 4..pos] == [window[3], window[2], window[1], window[0]];
    } else if pos >= 4 && OccursAt(data, BLANK_LINE, pos - 4) {
      forall j | 0 <= j < 4
        ensures window[j] == "\n\r\n\r"[j]
      {
        OccursByte(data, BLANK_LINE, pos - 4, 3 - j);
      }
      NoNul(window);
    }
  }

  /** `pos` bytes have been received into `header`, and no blank line ends before the last of them. */
  ghost predicate Scanned(p: Incoming, window: seq<char>, header: string, pos: nat, ended: bool) {
    && IsWindow(window, p.data, pos) && header == p.data[..pos]
    && (forall i: nat :: i + 4 < pos ==> !OccursAt(p.data, BLANK_LINE, i))
    && (ended <==> pos >= 4 && OccursAt(p.data, BLANK_LINE, pos - 4))
  }

  lemma ScanOne(p: Incoming, window: seq<char>, header: string, pos: nat)
    requires Scanned(p, window, header, pos, false) && pos < |p.data|
    ensures var c := p.data[pos];
      var window' := [c] + window[..3];
      Scanned(p, window', header + [c], pos + 1, Find(CString(window'), "\n\r\n\r", 0).Some?)
  {
    var window' := [p.data[pos]] + window[..3];
    WindowShowsBlankLine(window', p.data, pos + 1);
  }

  method RecvHeader(s: Socket) returns (r: Received)
    modifies s`incoming
    ensures r == HeaderOf(old(s.incoming)) && s.incoming == AfterHeader(old(s.incoming))
  {
    ghost var p := s.incoming;
    var inputChar := ['\0', '\0', '\0', '\0'];
    var retVal := "";
    var pos := 0;
    var ended := false;
    while !ended
      invariant pos <= |p.data| && s.incoming == Skip(p, pos)
      invariant Scanned(p, inputChar, retVal, pos, ended)
      decreases |p.data| - pos, !ended
    {
      var chunk := s.Receive(1);
      if chunk == Error {
        NoHeader(p, inputChar, retVal, pos);
        return Received(None, pos, Some(0));
      }
      if chunk == Closed {
        NoHeader(p, inputChar, retVal, pos);
        return Received(if retVal == "" then None else Some(retVal), pos, Some(0));
      }
      SkipOne(p, pos);
      ScanOne(p, inputChar, retVal, pos);
      inputChar := [chunk.bytes[0]] + inputChar[..3];
      retVal := retVal + chunk.bytes;
      pos := pos + 1;
      ended := Find(CString(inputChar), "\n\r\n\r", 0).Some?;
    }
    FoundHeader(p, inputChar, retVal, pos);
    var bodyLength := AnnouncedLength(retVal);
    r := Received(Some(retVal), pos, bodyLength);
  }

  /** The peer has ended before a blank line. */
  lemma NoHeader(p: Incoming, window: seq<char>, header: string, pos: nat)
    requires Scanned(p, window, header, pos, false) && p.data[pos..] == ""
    ensures pos == |p.data| && header == p.data && HeaderEnd(p.data) == None
  {
    FindGivesFirst(p.data, BLANK_LINE, 0);
  }

  lemma FoundHeader(p: Incoming, window: seq<char>, header: string, pos: nat)
    requires Scanned(p, window, header, pos, true)
    ensures HeaderEnd(p.data) == Some(pos)
  {
    FindIs(p.data, BLANK_LINE, 0, pos - 4);
  }

  lemma SkipOne(p: Incoming, pos: nat)
    requires pos < |p.data|
    ensures var (chunk, rest) := Recv(Skip(p, pos), 1);
      chunk == Data([p.data[pos]]) && rest == Skip(p, pos + 1)
  {
    var q := Skip(p, pos);
    assert q.data[..1] == [p.data[pos]];
    assert q.data[1..] == p.data[pos + 1..];
  }

  /** The end of `recvHeader`: Content-Length, or -1 for a 200 without it, or 0. */
  method AnnouncedLength(header: string) returns (r: Option<int>)
    ensures r == BodyLength(header)
  {
    var bLength := GetHeaderField(header, "Content-Length");
    match bLength {
      case Some(value) => r := Some(Atoi(value));
      case None =>
        var code := GetStatusCode(header);
        r := match code case Some(c) => Some(if c == 200 then -1 else 0) case None => None;
    }
  }

  /** `recvHeader_Mem`: the header at the front of a block of memory. */
  method RecvHeaderMem(mem: string) returns (r: Received)
    ensures var text := CString(mem);
      r == match HeaderEnd(text)
           case Some(k) => Received(Some(mem[..k]), k, BodyLength(mem[..k]))
           case None => Received(None, 0, Some(0))
  {
    var endOfHeader := Find(CString(mem), BLANK_LINE, 0);
    if endOfHeader == None {
      return Received(None, 0, Some(0));
    }
    var headerLength := endOfHeader.value + 4;
    var bodyLength := AnnouncedLength(mem[..headerLength]);
    r := Received(Some(mem[..headerLength]), headerLength, bodyLength);
  }

  /** On a block without NUL that holds a whole header, reading memory and reading a socket agree. */
  lemma MemoryAgreesWithSocket(mem: string, cuts: seq<nat>, breaks: bool)
    requires '\0' !in mem && HeaderEnd(mem).Some?
    ensures var k := HeaderEnd(CString(mem));
      && k.Some?
      && HeaderOf(Incoming(mem, cuts, breaks)) == Received(Some(mem[..k.value]), k.value, BodyLength(mem[..k.value]))
  {
    NoNul(mem);
  }

  // ---- The body ----

  datatype Body = Body(got: string, broke: bool)

  /** What the body loops collect: until `want` bytes are there, or for ever. */
  function Collect(p: Incoming, want: int, arbitrary: bool, got: string): (Body, Incoming)
    decreases |p.data|
  {
    if |got| >= want && !arbitrary then (Body(got, false), p)
    else
      var r := Recv(p, BUFFER);
      if r.0.Data? then Collect(r.1, want, arbitrary, got + r.0.bytes) else (Body(got, r.0 == Error), p)
  }

  lemma Associates(a: string, b: string, c: string)
    ensures a + b + c == a + (b + c)
  {
  }

  /** When the peer sends no more than is wanted, everything it sends is collected, whatever the cuts. */
  lemma {:induction false} CollectTakesAll(p: Incoming, want: int, arbitrary: bool, got: string)
    requires arbitrary || |got| + |p.data| <= want
    ensures Collect(p, want, arbitrary, got).0
            == Body(got + p.data, p.breaks && (arbitrary || |got| + |p.data| < want))
    decreases |p.data|
  {
    if p.data == "" {
      assert got + p.data == got;
    } else if !(|got| >= want && !arbitrary) {
      var (chunk, rest) := Recv(p, BUFFER);
      Associates(got, chunk.bytes, rest.data);
      CollectTakesAll(rest, want, arbitrary, got + chunk.bytes);
    }
  }

  /** In any case what is collected is a prefix of what the peer sends. */
  lemma {:induction false} CollectTakesPrefix(p: Incoming, want: int, arbitrary: bool, got: string)
    ensures got <= Collect(p, want, arbitrary, got).0.got <= got + p.data
    ensures Collect(p, want, arbitrary, got).0.got + Collect(p, want, arbitrary, got).1.data == got + p.data
    decreases |p.data|
  {
    if p.data == "" {
      assert got + p.data == got;
    } else if !(|got| >= want && !arbitrary) {
      var (chunk, rest) := Recv(p, BUFFER);
      Associates(got, chunk.bytes, rest.data);
      CollectTakesPrefix(rest, want, arbitrary, got + chunk.bytes);
    }
  }

  /** One byte at a time, the body loop stops exactly at the announced length. */
  lemma {:induction false} CollectOnes(p: Incoming, want: nat, got: string)
    requires |got| <= want <= |got| + |p.data|
    requires |p.cuts| >= |p.data| && forall i :: 0 <= i < |p.cuts| ==> p.cuts[i] == 1
    ensures |Collect(p, want, false, got).0.got| == want
    decreases |p.data|
  {
    if |got| < want {
      var (chunk, rest) := Recv(p, BUFFER);
      assert |chunk.bytes| == 1;
      CollectOnes(rest, want, got + chunk.bytes);
    }
  }

  /** What `recvAll` returns. */
  datatype Fetched =
    | Fetched(data: string, headerLength: nat, bodyLength: nat)
    | Null
    | Overrun     // more body bytes than the buffer holds
    | LengthUndefined

  function FetchOf(p: Incoming): Fetched {
    var h := HeaderOf(p);
    if h.header.None? then Null
    else if h.bodyLength.None? then LengthUndefined
    else FetchBody(h.header.value, h.headerLength, h.bodyLength.value, AfterHeader(p))
  }

  function FetchBody(header: string, headerLength: nat, bodyLen: int, p: Incoming): Fetched {
    if bodyLen == 0 then Fetched(header, headerLength, 0)
    else if bodyLen < 0 then
      // the buffer is cut down to fewer bytes than the header
      if |header| + bodyLen > 0 then Fetched(header[..|header| + bodyLen], headerLength, 0) else Null
    else
      var body := Collect(p, bodyLen, false, "").0;
      if |body.got| > bodyLen then Overrun
      else if body.broke then Null
      else Fetched(header + body.got, headerLength, |body.got|)
  }

  method RecvAll(s: Socket) returns (r: Fetched)
    modifies s`incoming
    ensures r == FetchOf(old(s.incoming))
  {
    var h := RecvHeader(s);
    if h.header == None {
      return Null;
    }
    if h.bodyLength == None {
      return LengthUndefined;
    }
    var header, bodyLen := h.header.value, h.bodyLength.value;
    if bodyLen == 0 {
      return Fetched(header, h.headerLength, 0);
    }
    if |header| + bodyLen <= 0 {
      return Null;
    }
    if bodyLen < 0 {
      return Fetched(header[..|header| + bodyLen], h.headerLength, 0);
    }
    ghost var p := s.incoming;
    var body := "";
    while |body| < bodyLen
      invariant |body| <= bodyLen
      invariant Collect(p, bodyLen, false, "").0 == Collect(s.incoming, bodyLen, false, body).0
      decreases |s.incoming.data|
    {
      var chunk := s.Receive(BUFFER);
      match chunk {
        case Error => return Null;
        case Closed => return Fetched(header + body, h.headerLength, |body|);
        case Data(bytes) =>
          if |body| + |bytes| > bodyLen {
            return Overrun;
          }
          body := body + bytes;
      }
    }
    r := Fetched(header + body, h.headerLength, |body|);
  }

  /** What `recvAll_NoData` returns and stores. */
  datatype Counted = Counted(total: int, bodyLength: nat) | NotCounted

  function CountOf(p: Incoming): Counted {
    var h := HeaderOf(p);
    if h.bodyLength.None? then NotCounted
    else
      var body := Collect(AfterHeader(p), h.bodyLength.value, false, "").0;
      Counted(if body.broke then -1 else h.headerLength + |body.got|, |body.got|)
  }

  method RecvAllNoData(s: Socket) returns (r: Counted)
    modifies s`incoming
    ensures r == CountOf(old(s.incoming))
  {
    var h := RecvHeader(s);
    if h.bodyLength == None {
      return NotCounted;
    }
    var retVal, bodyLength, bLen := h.headerLength, 0, h.bodyLength.value;
    ghost var p := s.incoming;
    ghost var body := "";
    while bodyLength < bLen
      invariant bodyLength == |body| && retVal == h.headerLength + bodyLength
      invariant Collect(p, bLen, false, "").0 == Collect(s.incoming, bLen, false, body).0
      decreases |s.incoming.data|
    {
      var chunk := s.Receive(BUFFER);
      match chunk {
        case Error => return Counted(-1, bodyLength);
        case Closed => return Counted(retVal, bodyLength);
        case Data(bytes) =>
          body := body + bytes;
          retVal, bodyLength := retVal + |bytes|, bodyLength + |bytes|;
      }
    }
    r := Counted(retVal, bodyLength);
  }

  /**
   On the same received bytes, counting gives the lengths of what storing returns. Where storing
   returns NULL, counting gives -1 only for a body that breaks off; without a header, or with an
   unknown length that leaves no header, it still gives the bytes of the header.
   */
  lemma CountingRefinesStoring(p: Incoming)
    ensures var h := HeaderOf(p);
      match FetchOf(p)
      case Fetched(_, headerLength, bodyLength) => CountOf(p) == Counted(headerLength + bodyLength, bodyLength)
      case LengthUndefined => CountOf(p) == NotCounted
      case Overrun => h.bodyLength.Some? && CountOf(p).Counted? && CountOf(p).bodyLength > h.bodyLength.value
      case Null =>
        && h.bodyLength.Some? && CountOf(p).Counted?
        && if h.header.None? || h.bodyLength.value < 0 then CountOf(p) == Counted(h.headerLength, 0)
           else p.breaks && CountOf(p).total == -1 && CountOf(p).bodyLength < h.bodyLength.value
  {
    var h := HeaderOf(p);
    if h.header.Some? && h.bodyLength.Some? && h.bodyLength.value > 0 {
      BrokeMeansShort(AfterHeader(p), h.bodyLength.value, "");
    }
  }

  lemma {:induction false} BrokeMeansShort(p: Incoming, want: int, got: string)
    ensures var r := Collect(p, want, false, got).0; r.broke ==> p.breaks && |r.got| < want
    decreases |p.data|
  {
    if |got| < want && p.data != "" {
      var (chunk, rest) := Recv(p, BUFFER);
      BrokeMeansShort(rest, want, got + chunk.bytes);
    }
  }

  // ---- What comes back in every case ----

  /** Without a blank line all bytes are the header, if the peer closes after at least one of them; there is no body. */
  lemma NoBlankLine(p: Incoming)
    requires forall i: nat :: !OccursAt(p.data, BLANK_LINE, i)
    ensures HeaderOf(p) == Received(if p.breaks || p.data == "" then None else Some(p.data), |p.data|, Some(0))
    ensures FetchOf(p) == if p.breaks || p.data == "" then Null else Fetched(p.data, |p.data|, 0)
    ensures CountOf(p) == Counted(|p.data|, 0)
  {
    FindGivesFirst(p.data, BLANK_LINE, 0);
  }

  /** What follows the blank line that ends a header is not looked at. */
  lemma HeaderIsFront(header: string, body: string, cuts: seq<nat>, breaks: bool)
    requires HeaderEnd(header) == Some(|header|)
    ensures var p := Incoming(header + body, cuts, breaks);
      && HeaderOf(p) == Received(Some(header), |header|, BodyLength(header))
      && AfterHeader(p) == Incoming(body, Drop(cuts, |header|), breaks)
  {
    var k := |header| - 4;
    FindGivesFirst(header, BLANK_LINE, 0);
    forall i: nat | i <= k
      ensures OccursAt(header + body, BLANK_LINE, i) <==> OccursAt(header, BLANK_LINE, i)
    {
      OccursInSum(header, body, BLANK_LINE, i);
    }
    FindIs(header + body, BLANK_LINE, 0, k);
    assert (header + body)[..|header|] == header && (header + body)[|header|..] == body;
  }

  /** With a length of 0 the header comes back alone; with a negative one it loses as many bytes. */
  lemma WithoutBody(header: string, body: string, cuts: seq<nat>, breaks: bool, n: int)
    requires HeaderEnd(header) == Some(|header|) && BodyLength(header) == Some(n) && n <= 0
    ensures FetchOf(Incoming(header + body, cuts, breaks))
            == if |header| + n > 0 then Fetched(header[..|header| + n], |header|, 0) else Null
    ensures CountOf(Incoming(header + body, cuts, breaks)) == Counted(|header|, 0)
  {
    HeaderIsFront(header, body, cuts, breaks);
    assert header[..|header|] == header;
  }

  /** Without a Content-Length: a 200 comes back one byte short and without its body, any other status is its header. */
  lemma WithoutLength(header: string, body: string, cuts: seq<nat>, breaks: bool, code: int)
    requires HeaderEnd(header) == Some(|header|)
    requires FieldOf(header, "Content-Length") == None && StatusOf(header) == Some(code)
    ensures FetchOf(Incoming(header + body, cuts, breaks))
            == Fetched(if code == 200 then header[..|header| - 1] else header, |header|, 0)
  {
    HeaderIsFront(header, body, cuts, breaks);
  }

  /**
   With an announced length, what comes back is the front of what was sent, no longer than announced, and
   shorter only when the peer has closed after all of it; more than announced can come only from a peer that
   sends more.
   */
  lemma FetchIsFront(p: Incoming)
    requires HeaderEnd(p.data).Some? && HeaderOf(p).bodyLength.Some? && HeaderOf(p).bodyLength.value >= 0
    ensures var h, n := HeaderEnd(p.data).value, HeaderOf(p).bodyLength.value;
      match FetchOf(p)
      case Fetched(data, headerLength, bodyLength) =>
        && data <= p.data && headerLength == h && |data| == h + bodyLength
        && bodyLength <= n && (bodyLength < n ==> data == p.data && !p.breaks)
      case Null => p.breaks && |p.data| < h + n
      case Overrun => |p.data| > h + n
      case LengthUndefined => false
  {
    var h, n := HeaderEnd(p.data).value, HeaderOf(p).bodyLength.value;
    assert p.data == p.data[..h] + p.data[h..];
    BodyIsFront(p.data[..h], AfterHeader(p), n, p.data);
  }

  lemma BodyIsFront(header: string, rest: Incoming, n: nat, all: string)
    requires all == header + rest.data
    ensures match FetchBody(header, |header|, n, rest)
      case Fetched(data, headerLength, bodyLength) =>
        && data <= all && headerLength == |header| && |data| == |header| + bodyLength
        && bodyLength <= n && (bodyLength < n ==> data == all && !rest.breaks)
      case Null => rest.breaks && |all| < |header| + n
      case Overrun => |all| > |header| + n
      case LengthUndefined => false
  {
    if n > 0 {
      CollectTakesPrefix(rest, n, false, "");
      CollectStops(rest, n, "");
      assert "" + rest.data == rest.data;
    }
  }

  /** The body loop stops short only when nothing more comes. */
  lemma {:induction false} CollectStops(p: Incoming, want: int, got: string)
    ensures var (body, rest) := Collect(p, want, false, got);
      && (|body.got| < want ==> rest.data == "" && body.broke == p.breaks)
      && (body.broke ==> |body.got| < want)
    decreases |p.data|
  {
    if |got| < want && p.data != "" {
      var (chunk, rest) := Recv(p, BUFFER);
      CollectStops(rest, want, got + chunk.bytes);
    }
  }

  // ---- Forwarding ----

  /** A long stored in an int. */
  function ToInt(n: int): int {
    (n + INT_LIMIT) % (2 * INT_LIMIT) - INT_LIMIT
  }

  lemma IntWraps(n: nat)
    requires n < 0x1_0000_0000
    ensures ToInt(n) == if n < 0x8000_0000 then n else n - 0x1_0000_0000
  {
  }

  /** Sending two pieces one after the other is sending them joined, as far as the connection takes them. */
  lemma TakenTwice(room: Room, a: string, b: string)
    ensures Taken(room, a + b) == Taken(room, a) + Taken(RoomAfter(room, |a|), b)
    ensures RoomAfter(room, |a + b|) == RoomAfter(RoomAfter(room, |a|), |b|)
  {
    if room.Only? && room.n < |a| {
      assert (a + b)[..room.n] == a[..room.n] + b[..0];
    } else if room.Only? && room.n < |a + b| {
      assert (a + b)[..room.n] == a + b[..room.n - |a|];
    }
  }

  /** A connection that has broken takes nothing of what would follow. */
  lemma TakenBroken(room: Room, a: string, whole: string)
    requires !Fits(room, |a|) && a <= whole
    ensures Taken(room, whole) == Taken(room, a) && !Fits(room, |whole|)
  {
  }

  /** `recvAll_Forward` without compression. */
  method RecvAllForward(from: Socket, to: Socket, header: string, bodyLength: int) returns (r: int)
    requires from != to && |header| < INT_LIMIT
    modifies from`incoming, to`sent, to`cuts, to`room
    ensures var body := Collect(old(from.incoming), bodyLength, bodyLength < 0, "").0;
      && to.sent == old(to.sent) + Taken(old(to.room), header + body.got)
      && to.room == RoomAfter(old(to.room), |header + body.got|)
      && r == if body.broke || !Fits(old(to.room), |header + body.got|) then -1 else ToInt(|header| + |body.got|)
  {
    ghost var room, start := to.room, to.sent;
    var arbitraryReceive := bodyLength < 0;
    ghost var whole := Collect(from.incoming, bodyLength, arbitraryReceive, "").0;
    TakenTwice(room, header, whole.got);
    var code, _ := SendAll(to, header);
    if code < 0 {
      TakenBroken(room, header, header + whole.got);
      return -1;
    }
    var bytesReceived, bytesSent := 0, 0;
    ghost var body := "";
    assert header + body == header;
    while bytesReceived < bodyLength || arbitraryReceive
      invariant bytesReceived == bytesSent == |body|
      invariant Fits(room, |header + body|) && to.room == RoomAfter(room, |header + body|)
      invariant to.sent == start + (header + body)
      invariant Collect(from.incoming, bodyLength, arbitraryReceive, body).0 == whole
      decreases |from.incoming.data|
    {
      var chunk := from.Receive(BUFFER);
      match chunk {
        case Error => return -1;
        case Closed => return ToInt(bytesSent + |header|);
        case Data(bytes) =>
          bytesReceived := bytesReceived + |bytes|;
          CollectTakesPrefix(from.incoming, bodyLength, arbitraryReceive, body + bytes);
          Associates(header, body, bytes);
          TakenTwice(room, header + body, bytes);
          Associates(start, header + body, Taken(to.room, bytes));
          var code, _ := SendAll(to, bytes);
          if code < 0 {
            Broken(room, header, body + bytes, whole.got);
            return -1;
          }
          body := body + bytes;
          bytesSent := bytesSent + |bytes|;
      }
    }
    r := ToInt(|header| + bytesSent);
  }

  lemma Broken(room: Room, header: string, part: string, whole: string)
    requires !Fits(room, |header + part|) && part <= whole
    ensures Taken(room, header + whole) == Taken(room, header + part) && !Fits(room, |header + whole|)
    ensures RoomAfter(room, |header + whole|) == RoomAfter(room, |header + part|)
  {
    assert header + part <= header + whole;
    TakenBroken(room, header + part, header + whole);
  }
}
