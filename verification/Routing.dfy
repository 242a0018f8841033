/**
 How a client's request finds its way: the request that client.c prints for a proxy, the Host field
 taken apart by functions/getHeaderField.c, and the URL cut down by functions/stripAbsURL.c.
 */
module Routing {
  import opened CText
  import opened HeaderFields

  // ---- chopPortNum ----

  /** The bytes that the backwards loop skips. */
  predicate IsPortByte(c: char) {
    IsDigit(c) || c == ' ' || c == ':'
  }

  predicate DigitsAndSpaces(s: string) {
    forall i :: 0 <= i < |s| ==> IsDigit(s[i]) || s[i] == ' '
  }

  /** What is cut off: a colon and what follows it, or, without a colon, digits and spaces. */
  predicate IsPortTail(s: string) {
    s != "" && s[0] == ':' && DigitsAndSpaces(s[1..])
  }

  /** `r` is what `chopPortNum` leaves of `server`; nothing when C reads before the string. */
  ghost predicate Chopped(server: string, r: Option<string>) {
    match r
    case None => DigitsAndSpaces(server)
    case Some(u) =>
      && u <= server
      && (|| IsPortTail(server[|u|..])
          || (DigitsAndSpaces(server[|u|..]) && u != "" && !IsPortByte(u[|u| - 1])))
  }

  method ChopPortNum(server: string) returns (r: Option<string>)
    ensures Chopped(server, r)
  {
    if server == "" {
      return None;
    }
    var eos := |server| - 1;
    var ch := server[eos];
    while IsPortByte(ch)
      invariant 0 <= eos < |server| && ch == server[eos]
      invariant DigitsAndSpaces(server[eos + 1..])
      decreases eos
    {
      assert server[eos..] == [ch] + server[eos + 1..];
      if ch == ':' {
        return Some(server[..eos]);
      }
      eos := eos - 1;
      if eos < 0 {
        return None;
      }
      ch := server[eos];
    }
    r := Some(server[..eos + 1]);
  }

  /** The description leaves no choice. */
  lemma ChoppedOnce(server: string, r: Option<string>, q: Option<string>)
    requires Chopped(server, r) && Chopped(server, q)
    ensures r == q
  {
    if r.Some? && q.Some? {
      if |r.value| < |q.value| {
        LongerIsNotChopped(server, r.value, q.value);
      } else if |q.value| < |r.value| {
        LongerIsNotChopped(server, q.value, r.value);
      } else {
        assert r.value == server[..|r.value|] == q.value;
      }
    } else if r.Some? {
      HasStop(server, r.value);
    } else if q.Some? {
      HasStop(server, q.value);
    }
  }

  /** The byte at which the cut stops is neither digit nor space. */
  lemma HasStop(server: string, u: string)
    requires Chopped(server, Some(u))
    ensures !DigitsAndSpaces(server)
  {
    if IsPortTail(server[|u|..]) {
      assert server[|u|] == server[|u|..][0];
    } else {
      assert server[|u| - 1] == u[|u| - 1];
    }
  }

  lemma LongerIsNotChopped(server: string, u: string, v: string)
    requires Chopped(server, Some(u)) && |u| < |v| && v <= server
    ensures !Chopped(server, Some(v))
  {
    var tail := server[|u|..];
    var last := |v| - 1 - |u|;
    assert v[|v| - 1] == tail[last];
    assert last > 0 ==> tail[last] == tail[1..][last - 1];
    assert IsPortByte(tail[last]);
    if |v| < |server| {
      assert server[|v|..][0] == tail[last + 1] == tail[1..][last];
    }
  }

  /** With a port, the host comes back; without one, exactly when it does not end like a port. */
  lemma ChopGivesHost(h: string, port: nat, r: Option<string>)
    ensures Chopped(h + ":" + Digits(port), r) ==> r == Some(h)
    ensures Chopped(h, r) ==> (r == Some(h) <==> h != "" && !IsPortByte(h[|h| - 1]))
  {
    var server := h + ":" + Digits(port);
    assert server[|h|..] == ":" + Digits(port);
    assert (":" + Digits(port))[1..] == Digits(port);
    assert Chopped(server, Some(h));
    if Chopped(server, r) {
      ChoppedOnce(server, r, Some(h));
    }
    assert h[|h|..] == "";
  }

  // ---- getPortNumber ----

  /** `strrchr`. */
  function LastColon(s: string): (r: Option<nat>)
    ensures match r
      case Some(k) => k < |s| && s[k] == ':' && forall i :: k < i < |s| ==> s[i] != ':'
      case None => ':' !in s
  {
    if s == "" then None
    else if s[|s| - 1] == ':' then Some(|s| - 1)
    else LastColon(s[..|s| - 1])
  }

  const PORT_BUFFER := 100   // num[100]

  /** `getPortNumber`; nothing when C reads before the string or overruns its copy of the number. */
  function GetPortNumber(server: string): Option<int> {
    match LastColon(server)
    case None => Some(80)
    case Some(colon) =>
      if colon == 0 then None
      else if server[colon - 1] == 'p' then Some(80)
      else if |server| - colon - 1 >= PORT_BUFFER then None
      else Some(Atoi(server[colon + 1..]))
  }

  lemma {:induction false} LastColonIs(h: string, number: string)
    requires ':' !in number
    ensures LastColon(h + ":" + number) == Some(|h|)
  {
    var s := h + ":" + number;
    if number == "" {
      assert s[|s| - 1] == ':';
    } else {
      var shorter := number[..|number| - 1];
      assert s[|s| - 1] == number[|number| - 1];
      assert s[..|s| - 1] == h + ":" + shorter;
      LastColonIs(h, shorter);
    }
  }

  lemma {:induction false} NoColonInIt(s: string)
    requires ':' !in s
    ensures LastColon(s) == None
  {
    if s != "" {
      NoColonInIt(s[..|s| - 1]);
    }
  }

  /** Without a port, it is 80. */
  lemma DefaultPort(h: string)
    requires ':' !in h
    ensures GetPortNumber(h) == Some(80)
  {
    NoColonInIt(h);
  }

  /**
   Of anything with a colon, the bytes behind the last one are read as a number, unless there are 100 or
   more (or no byte before the colon); after a 'p' the answer is 80 whatever follows.
   */
  lemma PortBehindColon(h: string, number: string)
    requires ':' !in number
    ensures GetPortNumber(h + ":" + number)
            == if h == "" then None
               else if h[|h| - 1] == 'p' then Some(80)
               else if |number| >= 100 then None
               else Some(Atoi(number))
  {
    var server := h + ":" + number;
    LastColonIs(h, number);
    assert server[|h| + 1..] == number;
    assert h != "" ==> server[|h| - 1] == h[|h| - 1];
  }

  /** The port comes back exactly when the host does not end in 'p' or the port is the default. */
  lemma PortComesBack(h: string, port: nat)
    requires h != "" && port < 0x8000_0000
    ensures GetPortNumber(h + ":" + Digits(port)) == Some(port) <==> h[|h| - 1] != 'p' || port == 80
  {
    IntHasTenDigits(port);
    PortBehindColon(h, Digits(port));
    assert Digits(port) + "" == Digits(port);
    AtoiOfDigits(port, "");
  }

  // ---- stripAbsURL ----

  const HTTP := "http://"
  const FIND_BUFFER := 9998   // what snprintf can print into toFind

  datatype Stripped =
    | Stripped(header: string)
    | Null
    | OutOfBounds    // C copies outside its buffers

  function StripOf(header: string): Stripped {
    match FieldOf(header, "\nHost")
    case None => Null
    case Some(host) => CutOut(header, |HTTP| + |host|)
  }

  /** The header without `cut` bytes after its first space. */
  function CutOut(header: string, cut: nat): Stripped {
    var start := Find(CString(header), " ", 0);
    if start.None? || cut > FIND_BUFFER || start.value + 1 + cut > |header| then OutOfBounds
    else Stripped(header[..start.value + 1] + header[start.value + 1 + cut..])
  }

  /** The two memcpy calls into the new buffer. */
  method CopyHalves(header: string, newLength: nat, firstHalf: nat, end: nat) returns (newHeader: array<char>)
    requires firstHalf <= end <= |header| && newLength == firstHalf + |header| - end
    ensures newHeader[..] == header[..firstHalf] + header[end..]
  {
    newHeader := new char[newLength](_ => '\0');
    forall i | 0 <= i < firstHalf {
      newHeader[i] := header[i];
    }
    forall i | 0 <= i < |header| - end {
      newHeader[firstHalf + i] := header[end + i];
    }
  }

  method StripAbsURL(header: string) returns (r: Stripped)
    ensures r == StripOf(header)
  {
    var host := GetHeaderField(header, "\nHost");
    match host {
      case None => r := Null;
      case Some(name) => r := CutURL(header, HTTP + name, |header| - |HTTP| - |name|);
    }
  }

  /** The rest of `stripAbsURL`, after the new length. */
  method CutURL(header: string, toFind: string, newLength: int) returns (r: Stripped)
    requires newLength == |header| - |toFind|
    ensures r == CutOut(header, |toFind|)
  {
    var start := Find(CString(header), " ", 0);
    if start == None || |toFind| > FIND_BUFFER {
      return OutOfBounds;
    }
    var firstHalf := start.value + 1;
    var end := start.value + |toFind| + 1;
    var secondHalf := |header| - |toFind| - firstHalf;
    if secondHalf < 0 {
      return OutOfBounds;
    }
    var newHeader := CopyHalves(header, newLength, firstHalf, end);
    r := Stripped(newHeader[..]);
  }

  /** What is sent to the server is never empty, and shorter by the scheme and the Host field. */
  lemma StripShortens(header: string)
    ensures match StripOf(header)
      case Stripped(t) =>
        && FieldOf(header, "\nHost").Some?
        && |t| + |HTTP| + |FieldOf(header, "\nHost").value| == |header|
        && t != "" && ' ' in t
      case _ => true
  {
    match StripOf(header)
    case Stripped(t) =>
      var k := Find(CString(header), " ", 0).value;
      FindGivesFirst(CString(header), " ", 0);
      OccursByte(CString(header), " ", k, 0);
      assert t[k] == ' ';
    case _ =>
  }

  /** When there is no result: no Host field; no space, a Host field of more than 9,991 bytes, or too few bytes. */
  lemma StripFails(header: string)
    ensures StripOf(header) == Null <==> FieldOf(header, "\nHost") == None
    ensures match FieldOf(header, "\nHost")
      case None => true
      case Some(host) =>
        StripOf(header) == OutOfBounds <==>
          || ' ' !in CString(header) || |host| > 9_991
          || exists k :: 0 <= k < |CString(header)| && header[k] == ' ' && NoSpace(header[..k])
                         && |header| - k - 1 < 7 + |host|
  {
    var text := CString(header);
    FindGivesFirst(text, " ", 0);
    match Find(text, " ", 0)
    case None =>
      forall k | 0 <= k < |text|
        ensures text[k] != ' '
      {
        SpaceOccurs(text, k);
      }
    case Some(k) => FirstSpaceIs(header, text, k);
  }

  lemma SpaceOccurs(text: string, k: nat)
    requires k < |text|
    ensures OccursAt(text, " ", k) <==> text[k] == ' '
  {
    assert text[k..k + 1] == [text[k]];
  }

  lemma FirstSpaceIs(header: string, text: string, k: nat)
    requires text <= header && OccursAt(text, " ", k) && forall i: nat :: i < k ==> !OccursAt(text, " ", i)
    ensures header[k] == ' ' && ' ' in text
    ensures forall j :: 0 <= j < |text| && header[j] == ' ' && NoSpace(header[..j]) ==> j == k
    ensures NoSpace(header[..k])
  {
    SpaceOccurs(text, k);
    assert text[k] == ' ';
    forall i | 0 <= i < k
      ensures header[i] != ' '
    {
      SpaceOccurs(text, i);
    }
    forall j | 0 <= j < |text| && header[j] == ' ' && NoSpace(header[..j])
      ensures j == k
    {
      if k < j {
        SpaceBefore(header, k, j);
      }
    }
  }

  lemma SpaceBefore(s: string, k: nat, j: nat)
    requires k < j <= |s| && s[k] == ' '
    ensures !NoSpace(s[..j])
  {
    assert s[..j][k] == ' ';
  }

  predicate NoSpace(s: string) {
    forall i :: 0 <= i < |s| ==> s[i] != ' '
  }

  lemma CutOutIs(text: string, k: nat, cut: nat)
    requires '\0' !in text && k < |text| && text[k] == ' ' && forall i :: 0 <= i < k ==> text[i] != ' '
    requires cut <= FIND_BUFFER
    ensures CutOut(text, cut)
            == if k + 1 + cut > |text| then OutOfBounds else Stripped(text[..k + 1] + text[k + 1 + cut..])
  {
    NoNul(text);
    FindByte(text, ' ', 0, k);
  }

  lemma FirstSpaceAt(verb: string, rest: string)
    requires NoSpace(verb)
    ensures var text := verb + (" " + rest);
      |verb| < |text| && text[|verb|] == ' ' && forall i :: 0 <= i < |verb| ==> text[i] != ' '
  {
  }

  /** Cutting `n` bytes after the first word leaves the rest exactly when they are the URL. */
  lemma CutAt(verb: string, url: string, rest: string, n: nat)
    ensures var text := verb + (" " + (url + rest));
      var k := |verb|;
      k + 1 + n <= |text| && text[..k + 1] + text[k + 1 + n..] == verb + (" " + rest) <==> n == |url|
  {
    var text := verb + (" " + (url + rest));
    if n == |url| {
      assert text[..|verb| + 1] == verb + " ";
      assert text[|verb| + 1 + n..] == rest;
    } else if |verb| + 1 + n <= |text| {
      assert |text[..|verb| + 1] + text[|verb| + 1 + n..]| == |text| - n;
    }
  }

  lemma CutOutAt(text: string, verb: string, url: string, rest: string, cut: nat)
    requires text == verb + (" " + (url + rest)) && NoSpace(verb) && '\0' !in text && cut <= FIND_BUFFER
    ensures CutOut(text, cut) == Stripped(verb + (" " + rest)) <==> cut == |url|
  {
    FirstSpaceAt(verb, url + rest);
    CutOutIs(text, |verb|, cut);
    CutAt(verb, url, rest, cut);
  }

  lemma PrintedRequest(verb: string, url: string, rest: string, fields: seq<(string, string)>)
    ensures Print(Header(verb + " " + url + rest, fields))
            == verb + (" " + (url + (rest + (EOL + PrintFields(fields)))))
  {
  }

  /** A request line; `target` is the URL without scheme and authority. */
  function RequestLine(verb: string, url: string, target: string): string {
    verb + " " + url + target
  }

  /**
   For every well-formed request with the URL "http://" authority, `stripAbsURL` yields exactly the
   same request with a relative target if and only if the Host field is as long as the authority.
   */
  lemma StripIsExact(verb: string, authority: string, target: string, fields: seq<(string, string)>, host: string)
    requires NoSpace(verb) && WellFormed(Header(RequestLine(verb, HTTP + authority, target), fields))
    requires Lookup(fields, "Host") == Some(host) && |HTTP| + |host| <= FIND_BUFFER
    ensures StripOf(Print(Header(RequestLine(verb, HTTP + authority, target), fields)))
              == Stripped(Print(Header(RequestLine(verb, "", target), fields)))
            <==> |host| == |authority|
  {
    var h := Header(RequestLine(verb, HTTP + authority, target), fields);
    var rest := target + (EOL + PrintFields(fields));
    HostOf(h, host);
    PrintedRequest(verb, HTTP + authority, target, fields);
    PrintedRequest(verb, "", target, fields);
    NothingBefore(rest);
    CutOutAt(Print(h), verb, HTTP + authority, rest, |HTTP| + |host|);
  }

  lemma NothingBefore(s: string)
    ensures "" + s == s
  {
  }

  lemma HostOf(h: Header, host: string)
    requires WellFormed(h) && Lookup(h.fields, "Host") == Some(host)
    ensures FieldOf(Print(h), "\nHost") == Some(host) && '\0' !in Print(h)
  {
    HostName();
    PrintIsText(h);
    LookupFinds(h, "Host");
  }

  lemma HostName()
    ensures "\n" + "Host" == "\nHost" && SearchName("Host")
  {
  }

  // ---- The client's request, through the proxy ----

  /** What "%s:%d" prints. */
  function Authority(host: string, port: nat): string {
    host + ":" + Digits(port)
  }

  /** The path that is asked for: a '/' is put before the file name unless it has one. */
  function Target(file: string): string {
    if "/" <= file then file else "/" + file
  }

  function HostLine(authority: string): string {
    "Host: " + authority + EOL
  }

  /** client.c:170-174; the server that the client is given is "http://" and the host. */
  function ProxyRequest(authority: string, file: string): string {
    "GET " + HTTP + authority + Target(file) + " " + PROTOCOL + EOL + HostLine(authority) + EOL
  }

  /** The same request with a relative target. */
  function RelativeRequest(authority: string, file: string): string {
    "GET " + Target(file) + " " + PROTOCOL + EOL + HostLine(authority) + EOL
  }

  /** What the client is given: a host and a file name that fit on a line. */
  predicate Askable(host: string, port: nat, file: string) {
    && host != "" && host[0] != ' ' && Inline(host) && |host| < 9000
    && port < 0x8000_0000
    && Inline(file)
  }

  function HostFields(authority: string): seq<(string, string)> {
    [("Host", " " + authority)]
  }

  lemma HostIsPrinted(authority: string)
    ensures PrintFields(HostFields(authority)) == HostLine(authority) + EOL
  {
    assert PrintFields(HostFields(authority)) == "Host" + ":" + (" " + authority) + EOL + EOL;
  }

  lemma RequestsArePrinted(authority: string, file: string)
    ensures var target := Target(file) + " " + PROTOCOL;
      && ProxyRequest(authority, file)
         == Print(Header(RequestLine("GET", HTTP + authority, target), HostFields(authority)))
      && RelativeRequest(authority, file) == Print(Header(RequestLine("GET", "", target), HostFields(authority)))
  {
    var target := Target(file) + " " + PROTOCOL;
    HostIsPrinted(authority);
    PrintedRequest("GET", HTTP + authority, target, HostFields(authority));
    PrintedRequest("GET", "", target, HostFields(authority));
    Regroup(HTTP + authority, Target(file), HostLine(authority));
    RegroupRelative(Target(file), HostLine(authority));
    assert "GET " + HTTP + authority == "GET " + (HTTP + authority);
  }

  lemma Regroup(url: string, path: string, line: string)
    ensures "GET " + url + path + " " + PROTOCOL + EOL + line + EOL
            == "GET" + (" " + (url + ((path + " " + PROTOCOL) + (EOL + (line + EOL)))))
  {
  }

  lemma RegroupRelative(path: string, line: string)
    ensures "GET " + path + " " + PROTOCOL + EOL + line + EOL
            == "GET" + (" " + ("" + ((path + " " + PROTOCOL) + (EOL + (line + EOL)))))
  {
  }

  lemma HostIsLookedUp(authority: string)
    requires authority != "" && authority[0] != ' '
    ensures Lookup(HostFields(authority), "Host") == Some(authority)
  {
    assert "Host"[..4] == "Host";
    assert Begins("Host", "Host");
    assert (" " + authority)[1..] == authority;
    assert Trim(" " + authority) == authority;
  }

  lemma RequestIsWellFormed(authority: string, file: string)
    requires Inline(authority) && Inline(file)
    ensures WellFormed(Header(RequestLine("GET", HTTP + authority, Target(file) + " " + PROTOCOL),
                              HostFields(authority)))
  {
    LineIsInline(authority, file);
    InlineSum(" ", authority);
  }

  lemma LineIsInline(authority: string, file: string)
    requires Inline(authority) && Inline(file)
    ensures Inline(RequestLine("GET", HTTP + authority, Target(file) + " " + PROTOCOL))
  {
    var url, target := HTTP + authority, Target(file);
    InlineSum("/", file);
    InlineSum(target, " ");
    InlineSum(target + " ", PROTOCOL);
    InlineSum(HTTP, authority);
    InlineLine("GET", url, target + " " + PROTOCOL);
  }

  lemma InlineLine(verb: string, url: string, target: string)
    requires Inline(verb) && Inline(url) && Inline(target)
    ensures Inline(RequestLine(verb, url, target))
  {
    InlineSum(verb, " ");
    InlineSum(verb + " ", url);
    InlineSum(verb + " " + url, target);
  }

  lemma InlineSum(a: string, b: string)
    requires Inline(a) && Inline(b)
    ensures Inline(a + b)
  {
  }

  lemma RequestIsStripped(authority: string, file: string)
    requires authority != "" && authority[0] != ' ' && Inline(authority) && |authority| < 9100 && Inline(file)
    ensures FieldOf(ProxyRequest(authority, file), "\nHost") == Some(authority)
    ensures StripOf(ProxyRequest(authority, file)) == Stripped(RelativeRequest(authority, file))
  {
    var target := Target(file) + " " + PROTOCOL;
    var fields := HostFields(authority);
    RequestsArePrinted(authority, file);
    HostIsLookedUp(authority);
    RequestIsWellFormed(authority, file);
    HostOf(Header(RequestLine("GET", HTTP + authority, target), fields), authority);
    StripIsExact("GET", authority, target, fields, authority);
  }

  lemma AuthorityIsInline(host: string, port: nat, file: string)
    requires Askable(host, port, file)
    ensures var a := Authority(host, port); a[0] == host[0] && Inline(a) && |a| < 9100
  {
    IntHasTenDigits(port);
  }

  /**
   For every request a client builds for the proxy, `chopPortNum` gives the host back, `stripAbsURL`
   gives the same request with a relative target, shorter by the URL's scheme and authority, and
   `getPortNumber` gives the port back exactly when the host does not end in 'p' or the port is 80
   (section 5.1.2 of RFC 1945).
   */
  lemma RoutingRoundTrip(host: string, port: nat, file: string, chopped: Option<string>)
    requires Askable(host, port, file)
    ensures var a := Authority(host, port);
      && FieldOf(ProxyRequest(a, file), "\nHost") == Some(a)
      && (Chopped(a, chopped) ==> chopped == Some(host))
      && (GetPortNumber(a) == Some(port) <==> host[|host| - 1] != 'p' || port == 80)
      && StripOf(ProxyRequest(a, file)) == Stripped(RelativeRequest(a, file))
      && |RelativeRequest(a, file)| + |HTTP + a| == |ProxyRequest(a, file)|
  {
    ChopGivesHost(host, port, chopped);
    PortComesBack(host, port);
    AuthorityIsInline(host, port, file);
    RequestIsStripped(Authority(host, port), file);
  }

  /**
   The same for a Host field without a port: the port is 80, the request is stripped, and the host comes
   back exactly when its last byte is no digit or space.
   */
  lemma PortlessRoundTrip(host: string, file: string, chopped: Option<string>)
    requires host != "" && host[0] != ' ' && Inline(host) && |host| < 9000 && Inline(file) && ':' !in host
    ensures FieldOf(ProxyRequest(host, file), "\nHost") == Some(host)
    ensures GetPortNumber(host) == Some(80)
    ensures Chopped(host, chopped) ==>
              (chopped == Some(host) <==> !IsDigit(host[|host| - 1]) && host[|host| - 1] != ' ')
    ensures StripOf(ProxyRequest(host, file)) == Stripped(RelativeRequest(host, file))
  {
    RequestIsStripped(host, file);
    DefaultPort(host);
    ChopGivesHost(host, 0, chopped);
  }

  /** The two forms, written out. */
  lemma RequestsAreThese(authority: string, file: string)
    ensures ProxyRequest(authority, file)
            == "GET http://" + authority + Target(file) + " HTTP/1.0\r\nHost: " + authority + "\r\n\r\n"
    ensures RelativeRequest(authority, file)
            == "GET " + Target(file) + " HTTP/1.0\r\nHost: " + authority + "\r\n\r\n"
  {
    JoinsLine(" ", PROTOCOL, EOL, "Host: ", " HTTP/1.0\r\nHost: ");
    assert EOL + EOL == "\r\n\r\n";
    assert "GET " + HTTP == "GET http://";
    RequestRegroups("GET " + HTTP + authority + Target(file), " ", PROTOCOL, EOL, "Host: ", authority, EOL);
    RequestRegroups("GET " + Target(file), " ", PROTOCOL, EOL, "Host: ", authority, EOL);
  }

  lemma JoinsLine(a: string, b: string, c: string, d: string, line: string)
    requires a == " " && b == "HTTP/1.0" && c == "\r\n" && d == "Host: " && line == " HTTP/1.0\r\nHost: "
    ensures a + b + c + d == line
  {
  }

  lemma RequestRegroups(start: string, a: string, b: string, c: string, d: string, authority: string, end: string)
    ensures start + a + b + c + (d + authority + end) + end == start + (a + b + c + d) + authority + (end + end)
  {
  }
}
