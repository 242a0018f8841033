/**
 From the client's request to the file that the server opens: the checks of server.c:361-393, and
 the whole way through proxy and shared memory.
 */
module RequestToFile {
  import opened CText
  import opened HeaderFields
  import opened PercentDecode
  import opened PathAdmission
  import opened Routing
  import opened Wire
  import SharedProtocol
  import SharedDelivery

  // ---- Parsing the request ----

  /** What "%[^ ]" reads. */
  function Token(s: string): (t: string)
    ensures t <= s && NoSpace(t) && (|t| < |s| ==> s[|t|] == ' ')
  {
    if s == "" || s[0] == ' ' then "" else [s[0]] + Token(s[1..])
  }

  datatype Words = Words(verb: string, path: string)

  /** `sscanf(line, "%[^ ] %[^ ] %[^ ]", ...)`, when it reads three words. */
  function Parse(line: string): (r: Option<Words>)
    ensures r.Some? ==> r.value.verb != "" && r.value.path != "" && '\0' !in r.value.path
  {
    var text := CString(line);
    var verb := Token(text);
    var t := SkipSpace(text[|verb|..]);
    var path := Token(t);
    var protocol := Token(SkipSpace(t[|path|..]));
    if verb == "" || path == "" || protocol == "" then None
    else
      TailHasNoNul(text, |verb|, t);
      Some(Words(verb, path))
  }

  lemma TailHasNoNul(text: string, from: nat, t: string)
    requires from <= |text| && '\0' !in text && t == SkipSpace(text[from..])
    ensures '\0' !in t
  {
    SkipSpaceDrops(text[from..]);
  }

  lemma {:induction false} SkipSpaceDrops(s: string)
    ensures |SkipSpace(s)| <= |s| && SkipSpace(s) == s[|s| - |SkipSpace(s)|..]
  {
    if s != "" && IsSpace(s[0]) {
      SkipSpaceDrops(s[1..]);
    }
  }

  datatype Verdict = Refused(status: nat) | Serves(file: string)

  /** What the server makes of a request. */
  function VerdictOf(line: string): Verdict {
    match Parse(line)
    case None => Refused(400)
    case Some(Words(verb, path)) =>
      if !SameLetters(verb, "get") then Refused(501)
      else if path[0] == '/' && Admissible(FileName(path)) then Serves(FileName(path))
      else Refused(400)
  }

  /** server.c:361-393; `stray` and `strayLiteral` are the memory before the path and before "./". */
  method CheckRequest(line: string, stray: string, strayLiteral: string) returns (r: Verdict)
    requires |stray| >= 2 && |strayLiteral| >= 2
    ensures r == VerdictOf(line)
  {
    var words := Parse(line);
    if words == None {
      return Refused(400);
    }
    if !SameLetters(words.value.verb, "get") {
      return Refused(501);
    }
    var text := words.value.path;
    var buffer := text + ['\0'];
    var path := new char[|buffer|](i requires 0 <= i < |buffer| => buffer[i]);
    assert path[..] == buffer && path[..|text|] == text;
    var file := AdmitPath(path, |text|, stray, strayLiteral);
    r := if file == None then Refused(400) else Serves(file.value);
  }

  /** `sizeof(line) - 1`. */
  const REQUEST_BUFFER := 19_999

  /** What one `recv` brings; nothing when the peer has closed or the connection is broken. */
  function FirstChunk(p: Incoming): string {
    match Recv(p, REQUEST_BUFFER).0
    case Data(bytes) => bytes
    case _ => ""
  }

  /** At most 19,999 bytes. */
  lemma ChunkIsBounded(data: string, breaks: bool)
    ensures FirstChunk(Incoming(data, [], breaks)) == if |data| <= 19_999 then data else data[..19_999]
  {
  }

  /** A request on a socket: server.c:296-302, and the checks on what has come. */
  method CheckSocket(s: Socket, stray: string, strayLiteral: string) returns (r: Verdict)
    requires |stray| >= 2 && |strayLiteral| >= 2
    modifies s`incoming
    ensures s.incoming == Recv(old(s.incoming), REQUEST_BUFFER).1
    ensures r == VerdictOf(FirstChunk(old(s.incoming)))
  {
    var chunk := s.Receive(REQUEST_BUFFER);
    match chunk
    case Error => return Refused(400);
    case Closed => r := CheckRequest("", stray, strayLiteral);
    case Data(bytes) => r := CheckRequest(bytes, stray, strayLiteral);
  }

  // ---- The file that was asked for ----

  lemma {:induction false} TokenIs(word: string, rest: string)
    requires NoSpace(word)
    ensures Token(word + (" " + rest)) == word
  {
    if word == "" {
      assert word + (" " + rest) == " " + rest;
    } else {
      TokenIs(word[1..], rest);
      assert (word + (" " + rest))[1..] == word[1..] + (" " + rest);
    }
  }

  lemma SkipsOne(rest: string)
    requires rest != "" && !IsSpace(rest[0])
    ensures SkipSpace(" " + rest) == rest
  {
    assert (" " + rest)[1..] == rest;
  }

  lemma AfterWord(word: string, rest: string)
    ensures (word + (" " + rest))[|word|..] == " " + rest
  {
  }

  /** Three words with single spaces between them are read as they are. */
  lemma ParseIs(text: string, verb: string, path: string, rest: string)
    requires text == verb + (" " + (path + (" " + rest))) && '\0' !in text
    requires verb != "" && NoSpace(verb) && path != "" && NoSpace(path) && !IsSpace(path[0])
    requires rest != "" && !IsSpace(rest[0])
    ensures Parse(text) == Some(Words(verb, path))
  {
    var tail := path + (" " + rest);
    NoNul(text);
    TokenIs(verb, tail);
    AfterWord(verb, tail);
    assert tail[0] == path[0];
    SkipsOne(tail);
    TokenIs(path, rest);
    AfterWord(path, rest);
    SkipsOne(rest);
    assert Token(rest) != "";
  }

  lemma {:induction false} TokenIsAll(word: string)
    requires NoSpace(word)
    ensures Token(word) == word
  {
    if word != "" {
      TokenIsAll(word[1..]);
    }
  }

  /** One word, or two, are too few. */
  lemma OneWord(word: string)
    requires NoSpace(word) && '\0' !in word
    ensures Parse(word) == None && Parse(word + (" " + "")) == None
  {
    var text := word + (" " + "");
    TokenIsAll(word);
    NoNul(word);
    NoNul(text);
    TokenIs(word, "");
    AfterWord(word, "");
    OnlySpace();
    assert text[|word|..] == " " + "";
  }

  lemma OnlySpace()
    ensures SkipSpace(" " + "") == ""
  {
    assert (" " + "")[1..] == "";
  }

  lemma TwoWords(verb: string, path: string)
    requires NoSpace(verb) && NoSpace(path) && path != "" && !IsSpace(path[0]) && '\0' !in verb && '\0' !in path
    ensures Parse(verb + (" " + path)) == None
  {
    NoNul(verb + (" " + path));
    TokenIs(verb, path);
    AfterWord(verb, path);
    SkipsOne(path);
    TokenIsAll(path);
  }

  lemma TwoWordsAndSpace(verb: string, path: string)
    requires NoSpace(verb) && NoSpace(path) && path != "" && !IsSpace(path[0]) && '\0' !in verb && '\0' !in path
    ensures Parse(verb + (" " + (path + (" " + "")))) == None
  {
    var tail := path + (" " + "");
    NoNul(verb + (" " + tail));
    TokenIs(verb, tail);
    AfterWord(verb, tail);
    SkipsOne(tail);
    TokenIs(path, "");
    AfterWord(path, "");
    OnlySpace();
  }

  /** A front part of three words is read like the whole if and only if it reaches into the third. */
  lemma PrefixParses(text: string, verb: string, path: string, rest: string, k: nat)
    requires text == verb + (" " + (path + (" " + rest))) && '\0' !in text && k <= |text|
    requires verb != "" && NoSpace(verb) && path != "" && NoSpace(path) && !IsSpace(path[0])
    requires rest != "" && !IsSpace(rest[0])
    ensures Parse(text) == Some(Words(verb, path))
    ensures Parse(text[..k]) == if k >= |verb| + |path| + 3 then Parse(text) else None
  {
    var v, p := |verb|, |path|;
    ParseIs(text, verb, path, rest);
    if k <= v {
      assert text[..k] == verb[..k];
      OneWord(verb[..k]);
    } else if k == v + 1 {
      assert text[..k] == verb + (" " + "");
      OneWord(verb);
    } else if k <= v + 1 + p {
      assert text[..k] == verb + (" " + path[..k - v - 1]);
      TwoWords(verb, path[..k - v - 1]);
    } else if k == v + p + 2 {
      assert text[..k] == verb + (" " + (path + (" " + "")));
      TwoWordsAndSpace(verb, path);
    } else {
      assert text[..k] == verb + (" " + (path + (" " + rest[..k - v - p - 2])));
      ParseIs(text[..k], verb, path, rest[..k - v - p - 2]);
    }
  }

  /** On a socket the first `recv` decides. */
  lemma FirstChunkDecides(p: Incoming, verb: string, path: string, rest: string)
    requires p.data == verb + (" " + (path + (" " + rest))) && '\0' !in p.data
    requires verb != "" && NoSpace(verb) && path != "" && NoSpace(path) && !IsSpace(path[0])
    requires rest != "" && !IsSpace(rest[0])
    ensures Parse(p.data) == Some(Words(verb, path))
    ensures Parse(FirstChunk(p)) == if |FirstChunk(p)| >= |verb| + |path| + 3 then Parse(p.data) else None
  {
    var chunk := FirstChunk(p);
    assert chunk == p.data[..|chunk|];
    PrefixParses(p.data, verb, path, rest, |chunk|);
  }

  lemma RelativeIsWords(authority: string, file: string)
    ensures RelativeRequest(authority, file)
            == "GET" + (" " + (Target(file) + (" " + (PROTOCOL + (EOL + (HostLine(authority) + EOL))))))
  {
    WordsRegroup(Target(file), HostLine(authority));
  }

  lemma WordsRegroup(path: string, line: string)
    ensures "GET " + path + " " + PROTOCOL + EOL + line + EOL
            == "GET" + (" " + (path + (" " + (PROTOCOL + (EOL + (line + EOL))))))
  {
  }

  lemma RelativeIsText(authority: string, file: string)
    requires Inline(authority) && Inline(file)
    ensures '\0' !in RelativeRequest(authority, file)
  {
  }

  lemma RelativeIsParsed(authority: string, file: string)
    requires Inline(authority) && Inline(file) && NoSpace(file)
    ensures Parse(RelativeRequest(authority, file)) == Some(Words("GET", Target(file)))
  {
    var rest := PROTOCOL + (EOL + (HostLine(authority) + EOL));
    RelativeIsWords(authority, file);
    ParseIs(RelativeRequest(authority, file), "GET", Target(file), rest);
  }

  /** The verdict on a file name `d` that arrives undamaged. */
  function VerdictOn(d: string): Verdict {
    if d == "" then Serves("./") else if Admissible(d) then Serves(d) else Refused(400)
  }

  lemma RootIsAdmissible()
    ensures Admissible("./")
  {
    DotDotShows("./");
    forall i: nat
      ensures !OccursAt("./", "/../", i)
    {
    }
  }

  /** The letters g, e, t, in either case. */
  predicate IsGet(verb: string) {
    |verb| == 3 && verb[0] in "gG" && verb[1] in "eE" && verb[2] in "tT"
  }

  lemma GetIsGet(verb: string)
    ensures SameLetters(verb, "get") <==> IsGet(verb)
  {
    if |verb| == 3 {
      CaseOfLetter(verb[0], 'g', 'G');
      CaseOfLetter(verb[1], 'e', 'E');
      CaseOfLetter(verb[2], 't', 'T');
    }
  }

  lemma CaseOfLetter(c: char, lower: char, upper: char)
    requires 'a' <= lower <= 'z' && upper == Upper(lower)
    ensures Upper(c) == Upper(lower) <==> c == lower || c == upper
  {
  }

  /**
   The verdict on every request of three words: 501 exactly when the method is not GET in any case,
   else 400 for a path that does not begin with '/', else the verdict on the decoded name.
   */
  lemma VerdictIs(text: string, verb: string, path: string, rest: string)
    requires text == verb + (" " + (path + (" " + rest))) && '\0' !in text
    requires verb != "" && NoSpace(verb) && path != "" && NoSpace(path) && !IsSpace(path[0])
    requires rest != "" && !IsSpace(rest[0])
    ensures VerdictOf(text)
            == if !IsGet(verb) then Refused(501)
               else if path[0] != '/' then Refused(400)
               else VerdictOn(CString(Decode(path[1..])))
  {
    ParseIs(text, verb, path, rest);
    GetIsGet(verb);
    RootIsAdmissible();
  }

  /** A request of fewer words is a bad request, and so is none. */
  lemma FewWordsAreBad(verb: string, path: string)
    requires NoSpace(verb) && NoSpace(path) && path != "" && !IsSpace(path[0]) && '\0' !in verb && '\0' !in path
    ensures VerdictOf("") == VerdictOf(verb) == VerdictOf(verb + (" " + path)) == Refused(400)
  {
    OneWord("");
    OneWord(verb);
    TwoWords(verb, path);
  }

  /**
   Whatever percent-encoding of a name the client asks the proxy for, the server serves exactly that
   name when it is a relative path without a ".." component, the root for the empty name, and
   refuses it otherwise.
   */
  lemma ServesWhatWasAsked(authority: string, file: string, d: string)
    requires Inline(authority) && Inline(file) && NoSpace(file)
    requires Encodes(Target(file)[1..], d) && '\0' !in d
    ensures VerdictOf(RelativeRequest(authority, file)) == VerdictOn(d)
  {
    RelativeIsParsed(authority, file);
    DecodeUndoesEncoding(Target(file)[1..], d);
    NoNul(d);
    RootIsAdmissible();
  }

  lemma VerdictOnChunk(text: string, chunk: string, n: nat)
    requires Parse(chunk) == if |chunk| >= n then Parse(text) else None
    ensures VerdictOf(chunk) == if |chunk| >= n then VerdictOf(text) else Refused(400)
  {
  }

  lemma RelativeChunk(authority: string, file: string, p: Incoming)
    requires Inline(authority) && Inline(file) && NoSpace(file) && p.data == RelativeRequest(authority, file)
    ensures var chunk := FirstChunk(p);
      && chunk <= p.data && Parse(p.data).Some?
      && Parse(chunk) == if |chunk| >= |Target(file)| + 6 then Parse(p.data) else None
  {
    RelativeIsText(authority, file);
    RelativeIsWords(authority, file);
    FirstChunkDecides(p, "GET", Target(file), PROTOCOL + (EOL + (HostLine(authority) + EOL)));
  }

  /** Over a socket the same holds exactly if the first `recv` brings a byte behind the path; if not, it is 400. */
  lemma SocketServesWhatWasAsked(authority: string, file: string, d: string, p: Incoming)
    requires Inline(authority) && Inline(file) && NoSpace(file) && p.data == RelativeRequest(authority, file)
    requires Encodes(Target(file)[1..], d) && '\0' !in d
    ensures var chunk, n := FirstChunk(p), |Target(file)| + 6;
      && (Parse(chunk) == Parse(p.data) <==> |chunk| >= n)
      && VerdictOf(chunk) == if |chunk| >= n then VerdictOn(d) else Refused(400)
  {
    RelativeChunk(authority, file, p);
    VerdictOnChunk(p.data, FirstChunk(p), |Target(file)| + 6);
    ServesWhatWasAsked(authority, file, d);
  }

  /** Every name can be asked for: fully escaped, it fits a request, and the server's verdict is on that name. */
  lemma EveryNameCanBeAsked(authority: string, d: string) returns (file: string)
    requires Inline(authority) && forall i :: 0 <= i < |d| ==> 0 < d[i] as int < 256
    ensures Inline(file) && NoSpace(file) && Encodes(Target(file)[1..], d)
    ensures VerdictOf(RelativeRequest(authority, file)) == VerdictOn(d)
  {
    file := EveryStringHasEncoding(d);
    assert Target(file)[1..] == file;
    ServesWhatWasAsked(authority, file, d);
  }

  /**
   From the client's request to the served file and back, through the proxy and any run of the
   shared-memory protocol: the stripped request that the proxy sends reaches the server's parser
   undamaged, unless its first segment is lost, and the response reaches the client.
   */
  lemma AskedIsServed(cap: SharedProtocol.Capacity, states: seq<SharedProtocol.State>,
                      actions: seq<SharedProtocol.Action>, i: nat, e: SharedProtocol.Exchange,
                      host: string, port: nat, file: string, d: string)
    requires SharedProtocol.IsRun(cap, states, actions) && SharedDelivery.Uncrashed(states)
    requires i < |states| && e in states[i].log
    requires Askable(host, port, file) && NoSpace(file) && Encodes(Target(file)[1..], d) && '\0' !in d
    requires StripOf(ProxyRequest(Authority(host, port), file)) == Stripped(e.request)
    ensures !(e.early && |e.request| > cap) ==> VerdictOf(e.line) == VerdictOn(d)
    ensures e.got == e.response
  {
    SharedDelivery.SessionsDeliver(cap, states, actions, i, e);
    RoutingRoundTrip(host, port, file, None);
    AuthorityIsInline(host, port, file);
    ServesWhatWasAsked(Authority(host, port), file, d);
  }

  // ---- Without a proxy ----

  /** client.c:180-182. */
  function DirectRequest(server: string, file: string): string {
    "GET /" + file + " " + PROTOCOL + EOL + HostLine(server) + EOL
  }

  lemma DirectIsWords(server: string, file: string)
    ensures DirectRequest(server, file)
            == "GET" + (" " + ("/" + file + (" " + (PROTOCOL + (EOL + (HostLine(server) + EOL))))))
  {
    assert "GET /" + file == "GET " + ("/" + file);
    WordsRegroup("/" + file, HostLine(server));
  }

  /** The direct form, written out. */
  lemma DirectIsThis(server: string, file: string)
    ensures DirectRequest(server, file) == "GET /" + file + " HTTP/1.0\r\nHost: " + server + "\r\n\r\n"
  {
    JoinsLine(" ", PROTOCOL, EOL, "Host: ", " HTTP/1.0\r\nHost: ");
    assert EOL + EOL == "\r\n\r\n";
    RequestRegroups("GET /" + file, " ", PROTOCOL, EOL, "Host: ", server, EOL);
  }

  lemma DirectIsText(server: string, file: string)
    requires Inline(server) && Inline(file)
    ensures '\0' !in DirectRequest(server, file)
  {
  }

  lemma DirectIsParsed(server: string, file: string, p: Incoming)
    requires Inline(server) && Inline(file) && NoSpace(file) && p.data == DirectRequest(server, file)
    ensures Parse(p.data) == Some(Words("GET", "/" + file))
    ensures Parse(FirstChunk(p)) == if |FirstChunk(p)| >= |file| + 7 then Parse(p.data) else None
  {
    DirectIsText(server, file);
    DirectIsWords(server, file);
    FirstChunkDecides(p, "GET", "/" + file, PROTOCOL + (EOL + (HostLine(server) + EOL)));
  }

  /**
   The direct form always puts a '/' before the file name: what the first `recv` brings of it asks for
   the same file as the proxied form exactly when the name has none of its own and a byte behind the name
   has come; otherwise it is refused.
   */
  lemma DirectAndProxied(server: string, authority: string, file: string, p: Incoming)
    requires Inline(server) && Inline(authority) && Inline(file) && NoSpace(file)
    requires p.data == DirectRequest(server, file)
    ensures var chunk := FirstChunk(p);
      var whole := |chunk| >= |file| + 7;
      && (Parse(chunk) == Parse(RelativeRequest(authority, file)) <==> whole && !("/" <= file))
      && (!whole || "/" <= file ==> VerdictOf(chunk) == Refused(400))
  {
    DirectAsksTheSame(server, authority, file, p);
    if |FirstChunk(p)| < |file| + 7 || "/" <= file {
      DirectIsRefused(server, file, p);
    }
  }

  lemma DirectAsksTheSame(server: string, authority: string, file: string, p: Incoming)
    requires Inline(server) && Inline(authority) && Inline(file) && NoSpace(file)
    requires p.data == DirectRequest(server, file)
    ensures Parse(FirstChunk(p)) == Parse(RelativeRequest(authority, file))
            <==> |FirstChunk(p)| >= |file| + 7 && !("/" <= file)
  {
    DirectIsParsed(server, file, p);
    RelativeIsParsed(authority, file);
    TargetsDiffer(file);
  }

  lemma DirectIsRefused(server: string, file: string, p: Incoming)
    requires Inline(server) && Inline(file) && NoSpace(file) && p.data == DirectRequest(server, file)
    requires |FirstChunk(p)| < |file| + 7 || "/" <= file
    ensures VerdictOf(FirstChunk(p)) == Refused(400)
  {
    DirectIsParsed(server, file, p);
    if "/" <= file {
      SlashIsRefused(file);
    }
    IsRefused(FirstChunk(p), "/" + file);
  }

  lemma IsRefused(chunk: string, path: string)
    requires Parse(chunk) == None || (Parse(chunk) == Some(Words("GET", path)) && !Admissible(FileName(path)))
    ensures VerdictOf(chunk) == Refused(400)
  {
  }

  lemma TargetsDiffer(file: string)
    ensures "/" + file == Target(file) <==> !("/" <= file)
  {
    assert |"/" + file| == |file| + 1;
  }

  lemma SlashIsRefused(file: string)
    requires "/" <= file
    ensures !Admissible(FileName("/" + file))
  {
    var path := "/" + file;
    assert path[1..] == file && file[0] == '/';
    assert Decode(file)[0] == '/';
  }
}
