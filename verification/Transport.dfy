/**
 The two ways a response reaches the client: through the shared segment, and through a socket from
 server to proxy. Both put the same bytes on the client's connection.
 */
module Transport {
  import opened CText
  import opened HeaderFields
  import opened Wire
  import opened Receive
  import opened Response
  import SharedProtocol
  import SharedDelivery

  /** What the socket route forwards of the peer's bytes; nothing without a header, or when C leaves its length open. */
  function Forwarded(p: Incoming): Option<string> {
    var h := HeaderOf(p);
    if h.header.None? || h.bodyLength.None? then None else Some(h.header.value + BodyOf(p).got)
  }

  function BodyOf(p: Incoming): Body
    requires HeaderOf(p).bodyLength.Some?
  {
    var n := HeaderOf(p).bodyLength.value;
    Collect(AfterHeader(p), n, n < 0, "").0
  }

  /** The page that the proxy sends when it fails. */
  function Failure(): Response {
    ErrorResponse(500, "Internal Server Error", "", "The proxy encountered an error.\n")
  }

  /** Header and body as received, with the page behind them when the peer or the count fails. */
  function Outcome(header: string, body: Body, page: string): string {
    var whole := header + body.got;
    if body.broke || ToInt(|whole|) < 0 then whole + page else whole
  }

  /** What the proxy writes for the peer's bytes; the count of forwarded bytes is negative on failure. */
  function Reply(p: Incoming): Option<string> {
    var h := HeaderOf(p);
    if h.header.None? then Some(Sent(Failure()))
    else if h.bodyLength.None? then None
    else Some(Outcome(h.header.value, BodyOf(p), Sent(Failure())))
  }

  /** What a failing connection takes is the same with and without the page. */
  lemma OutcomeIsTaken(room: Room, header: string, body: Body, page: string)
    ensures var whole := header + body.got;
      Taken(room, Outcome(header, body, page))
      == Taken(room, if body.broke || !Fits(room, |whole|) || ToInt(|whole|) < 0 then whole + page else whole)
  {
    var whole := header + body.got;
    if !Fits(room, |whole|) {
      TakenBroken(room, whole, whole + page);
    }
  }

  /** What is sent after a text reaches the client behind it, as far as the connection takes it. */
  lemma FailsAfter(room: Room, start: string, whole: string, page: string)
    ensures start + Taken(room, whole) + Taken(RoomAfter(room, |whole|), page) == start + Taken(room, whole + page)
  {
    TakenTwice(room, whole, page);
    Associates(start, Taken(room, whole), Taken(RoomAfter(room, |whole|), page));
  }

  /** `recvAll_Forward`, and the page when its result is negative: proxy.c:450-460. */
  method ForwardOrFail(from: Socket, to: Socket, header: string, bodyLength: int, failure: Response)
    requires from != to && |header| < INT_LIMIT && |failure.body| < INT_LIMIT
    modifies from`incoming, to`sent, to`cuts, to`room
    ensures var body := Collect(old(from.incoming), bodyLength, bodyLength < 0, "").0;
      to.sent == old(to.sent) + Taken(old(to.room), Outcome(header, body, Sent(failure)))
  {
    ghost var room, start := to.room, to.sent;
    ghost var body := Collect(from.incoming, bodyLength, bodyLength < 0, "").0;
    OutcomeIsTaken(room, header, body, Sent(failure));
    var bytes := RecvAllForward(from, to, header, bodyLength);
    if bytes < 0 {
      SendResponse(failure, to);
      FailsAfter(room, start, header + body.got, Sent(failure));
    }
  }

  /** The end of the proxy's `handleClient`: proxy.c:422-462. A connection that breaks takes a prefix of the reply. */
  method ProxyForwards(from: Socket, to: Socket) returns (defined: bool)
    requires from != to && HeaderOf(from.incoming).headerLength < INT_LIMIT
    modifies from`incoming, to`sent, to`cuts, to`room
    ensures defined <==> Reply(old(from.incoming)).Some?
    ensures defined ==> to.sent == old(to.sent) + Taken(old(to.room), Reply(old(from.incoming)).value)
  {
    var h := RecvHeader(from);
    if h.header == None {
      SendResponse(Failure(), to);
      return true;
    }
    if h.bodyLength == None {
      return false;
    }
    ForwardOrFail(from, to, h.header.value, h.bodyLength.value, Failure());
    return true;
  }

  /** The whole socket route: the server prints, the network cuts, the proxy forwards. */
  method SocketRoute(r: Response, server: Socket, cuts: seq<nat>, breaks: bool, client: Socket)
    requires Printable(r)
    requires server != client && server.room == Unlimited && server.sent == ""
    modifies server`sent, server`cuts, server`room, client`sent, client`cuts, client`room
    ensures client.sent == old(client.sent)
              + Taken(old(client.room), if |Message(r)| < INT_LIMIT then Message(r) else Message(r) + Sent(Failure()))
  {
    SendResponse(r, server);
    assert "" + Message(r) == Message(r);
    ResponseIsAnswered(r, cuts, breaks);
    ResponseIsScanned(r, cuts, breaks);
    var from := new Socket(Incoming(server.sent, cuts, breaks), [], Unlimited);
    var _ := ProxyForwards(from, client);
  }

  lemma ResponseIsForwarded(r: Response, cuts: seq<nat>, breaks: bool)
    requires Printable(r)
    ensures Forwarded(Incoming(Message(r), cuts, breaks)) == Some(Message(r))
    ensures !BodyOf(Incoming(Message(r), cuts, breaks)).broke
  {
    ResponseIsScanned(r, cuts, breaks);
    CollectTakesAll(AfterHeader(Incoming(Message(r), cuts, breaks)), |r.body|, false, "");
    assert "" + r.body == r.body;
  }

  /** The only failure left is a count that does not fit the int it is returned in. */
  lemma ResponseIsAnswered(r: Response, cuts: seq<nat>, breaks: bool)
    requires Printable(r)
    ensures Reply(Incoming(Message(r), cuts, breaks))
            == Some(if |Message(r)| < INT_LIMIT then Message(r) else Message(r) + Sent(Failure()))
  {
    ResponseIsForwarded(r, cuts, breaks);
    CountFits(|Message(r)|);
  }

  lemma CountFits(n: nat)
    requires n < INT_LIMIT + HEADER_BUFFER
    ensures ToInt(n) < 0 <==> n >= INT_LIMIT
  {
  }

  /**
   In every run of the shared-memory protocol, whatever the interleaving and the segment size, and
   for every chunking on the sockets, both routes give the client the same bytes exactly when header
   and body together are shorter than 2^31 bytes.
   */
  lemma TransportEquivalence(cap: SharedProtocol.Capacity, states: seq<SharedProtocol.State>,
                             actions: seq<SharedProtocol.Action>, i: nat, e: SharedProtocol.Exchange,
                             r: Response, cuts: seq<nat>, breaks: bool)
    requires SharedProtocol.IsRun(cap, states, actions) && SharedDelivery.Uncrashed(states)
    requires i < |states| && e in states[i].log
    requires Printable(r) && e.response == Message(r)
    ensures Reply(Incoming(Message(r), cuts, breaks)) == Some(e.got) <==> |Message(r)| < INT_LIMIT
  {
    SharedDelivery.SessionsDeliver(cap, states, actions, i, e);
    ResponseIsAnswered(r, cuts, breaks);
    assert |Message(r) + Sent(Failure())| > |Message(r)| by {
      FailureIsText();
    }
  }

  lemma FailureIsText()
    ensures |Sent(Failure())| > 0
  {
  }

  // ---- What a client gets from a proxy that fails ----

  /** The page, written out: a 500 with its text. */
  lemma FailureIs()
    ensures Failure() == Response(500, "Internal Server Error", "", "text/html",
      "<html><head><title>" + "500" + " " + "Internal Server Error"
        + "</title></head>\n<body bgcolor=\"#CC9999\"><h4>" + "500" + " " + "Internal Server Error" + "</h4>\n"
        + "The proxy encountered an error.\n" + "<hr><address><a href=\"" + "http://www.magsolweb.net" + "\">"
        + "Squinn!" + "</a></address>\n</body></html>\n")
  {
    FiveHundred();
  }

  lemma FiveHundred()
    ensures Digits(500) == "500"
  {
    assert Digits(50) == "50";
  }

  ghost predicate IsPage(r: Response) {
    && r.status == 500 && r.title == "Internal Server Error" && r.headers == "" && r.mime == "text/html"
    && |r.body| < HEADER_BUFFER
  }

  lemma PageIsFramed(r: Response)
    requires IsPage(r)
    ensures Framed(r)
  {
    assert Inline(r.title) && Inline(r.mime);
    NoBlankInNothing(r.headers);
  }

  lemma PageFits(r: Response)
    requires IsPage(r)
    ensures |PrintHeader(r)| < HEADER_BUFFER
  {
    IntHasTenDigits(|r.body|);
    IntHasTenDigits(500);
  }

  /** Whoever fetches such a page gets it whole. */
  lemma PageIsFetched(r: Response, cuts: seq<nat>, breaks: bool)
    requires IsPage(r)
    ensures Sent(r) == Message(r)
    ensures FetchOf(Incoming(Sent(r), cuts, breaks)) == Fetched(Message(r), |PrintHeader(r)|, |r.body|)
  {
    PageIsFramed(r);
    PageFits(r);
    NoLengthInTitle(r.title);
    ShortIsLengthless(r.headers);
    ResponseRoundTrip(r, cuts, breaks);
  }

  /** The error page is such a page. */
  lemma FailureIsFetched(cuts: seq<nat>, breaks: bool)
    ensures FetchOf(Incoming(Sent(Failure()), cuts, breaks))
            == Fetched(Message(Failure()), |PrintHeader(Failure())|, |Failure().body|)
  {
    PageIsFetched(Failure(), cuts, breaks);
  }

  lemma NoLengthInTitle(title: string)
    requires title == "Internal Server Error"
    ensures Lengthless(title)
  {
    forall i: nat
      ensures !NamedAt(title, LENGTH_FIELD, i)
    {
      if i + |LENGTH_FIELD| <= |title| {
        assert title[i..i + |LENGTH_FIELD|][0] == title[i];
        assert Upper(LENGTH_FIELD[0]) == 'C';
      }
    }
  }

  lemma NoBlankInNothing(headers: string)
    requires headers == ""
    ensures forall i: nat :: !OccursAt(EOL + headers, BLANK_LINE, i)
  {
  }

  /** A peer without a blank line: the page alone when it sends nothing or breaks, else its bytes as they are. */
  lemma HeaderlessReply(p: Incoming)
    requires forall i: nat :: !OccursAt(p.data, BLANK_LINE, i)
    ensures Reply(p) == if p.breaks || p.data == "" then Some(Sent(Failure()))
                        else if |p.data| < INT_LIMIT then Some(p.data) else Reply(p)
  {
    NoBlankLine(p);
    assert p.data + "" == p.data;
    if |p.data| < INT_LIMIT {
      IntWraps(|p.data|);
    }
  }

  /** A peer that breaks inside its body: what has come, and the page behind it. A peer that closes: what has come. */
  lemma BrokenReply(header: string, body: string, cuts: seq<nat>, breaks: bool, n: int)
    requires HeaderEnd(header) == Some(|header|) && BodyLength(header) == Some(n) && (n < 0 || n > |body|)
    requires |header + body| < INT_LIMIT
    ensures Reply(Incoming(header + body, cuts, breaks))
            == Some(if breaks then header + body + Sent(Failure()) else header + body)
  {
    HeaderIsFront(header, body, cuts, breaks);
    CollectTakesAll(Incoming(body, Drop(cuts, |header|), breaks), n, n < 0, "");
    assert "" + body == body;
    IntWraps(|header + body|);
  }

  // ---- Which messages the routes agree on ----

  /** The announced length covers what follows the header. */
  predicate AnnouncedInFull(m: string) {
    match HeaderEnd(m)
    case None => m != ""
    case Some(k) =>
      var n := BodyLength(m[..k]);
      n.Some? && (n.value < 0 || n.value >= |m| - k)
  }

  /**
   For any message at all, the socket route forwards it whole for every chunking exactly when the
   length it announces covers its body. (The shared route forwards every message whole.)
   */
  lemma SocketRouteIsWhole(m: string)
    ensures AnnouncedInFull(m) <==> forall cuts :: Forwarded(Incoming(m, cuts, false)) == Some(m)
  {
    if AnnouncedInFull(m) {
      forall cuts
        ensures Forwarded(Incoming(m, cuts, false)) == Some(m)
      {
        WholeWhenAnnounced(m, cuts);
      }
    } else {
      CutShort(m);
    }
  }

  /**
   For any response at all, in every run: the socket route forwards what the shared route delivers, for
   every chunking, exactly when the length it announces covers its body.
   */
  lemma RoutesAgree(cap: SharedProtocol.Capacity, states: seq<SharedProtocol.State>,
                    actions: seq<SharedProtocol.Action>, i: nat, e: SharedProtocol.Exchange)
    requires SharedProtocol.IsRun(cap, states, actions) && SharedDelivery.Uncrashed(states)
    requires i < |states| && e in states[i].log
    ensures AnnouncedInFull(e.response)
            <==> forall cuts :: Forwarded(Incoming(e.response, cuts, false)) == Some(e.got)
  {
    SharedDelivery.SessionsDeliver(cap, states, actions, i, e);
    SocketRouteIsWhole(e.response);
  }

  lemma WholeWhenAnnounced(m: string, cuts: seq<nat>)
    requires AnnouncedInFull(m)
    ensures Forwarded(Incoming(m, cuts, false)) == Some(m)
  {
    var p := Incoming(m, cuts, false);
    match HeaderEnd(m) {
      case None =>
        CollectTakesAll(AfterHeader(p), 0, false, "");
        Rejoins(m, |m|);
        assert m[..|m|] == m;
      case Some(k) =>
        var n := BodyLength(m[..k]).value;
        CollectTakesAll(AfterHeader(p), n, n < 0, "");
        Rejoins(m, k);
    }
  }

  lemma Rejoins(m: string, k: nat)
    requires k <= |m|
    ensures m[..k] + ("" + m[k..]) == m
  {
  }

  lemma CutShort(m: string)
    requires !AnnouncedInFull(m)
    ensures exists cuts :: Forwarded(Incoming(m, cuts, false)) != Some(m)
  {
    var ones := seq(|m|, _ => 1);
    var p := Incoming(m, ones, false);
    if HeaderEnd(m).Some? {
      var k := HeaderEnd(m).value;
      var n := BodyLength(m[..k]);
      if n.Some? {
        CollectOnes(AfterHeader(p), n.value, "");
      }
    }
    assert Forwarded(p) != Some(m);
  }
}
