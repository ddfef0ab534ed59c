/** The QRZ.com XML callsign-lookup client of qrzlookup.py.

    The client's state is the value `Client`; every operation of the Python
    class is first a function from one `Client` to the next (`Step`), and
    then a method of the class `QrzLookup` that performs the same steps on
    its fields, calling the `XmlNode` extractor, and is proved to end in the
    state that function gives.  The only I/O, `_http_request`, is an
    abstract transport: the reply to the n-th request is `transport(n, uri)`,
    and the field `sent` records the request URLs in order. */
module QrzLookup {

  import opened Errors
  import opened Strings
  import opened XmlNode

  const BaseUrl: string := "http://xmldata.qrz.com/xml/current/"
  const InvalidKey: string := "Invalid session key"

  /** What `urllib.request.urlopen` does with one request: it answers, with
      a status, the final URL (after redirection), the headers and the
      body, or it raises one of the three kinds of exception the client
      catches.  `ReadFailure` is an answer whose body could not be read or
      decoded as UTF-8 (a read timeout, an incomplete read): the final URL
      has been stored by then, and the general handler reports the
      exception. */
  datatype Reply =
    | Response(status: int, url: string, info: string, body: string)
    | ReadFailure(url: string, message: string)
    | HttpError(code: int, reason: string)
    | UrlError(errno: Option<int>, reason: string)
    | Failure(message: string)

  /** The transport: the reply to the request with the given sequence
      number and URL. */
  type Transport = (nat, string) -> Reply

  /** The fields of a `qrzlookup` object, and the requests made so far. */
  datatype Client = Client(
    user: string, pass: string, agent: string, key: string,
    error: string, msg: string, sub: string,
    calldata: map<string, string>,
    status: Option<int>, info: string, body: string, rspUri: string,
    sent: seq<string>)

  /** The new state after an operation, and what the operation returned. */
  datatype Step = Step(client: Client, ok: bool)

  /** The credentials file handed to `get_file`: its lines, or the message of
      the exception that opening or reading it raised. */
  datatype CredentialsFile = Lines(lines: seq<string>) | Unreadable(message: string)

  /** The state `__init__` sets up. */
  function Initial(): Client
  {
    Client("", "", "", "", "", "", "", map[], Some(0), "", "", "", [])
  }

  function SessionUrl(user: string, pass: string, agent: string): string
  {
    BaseUrl + "?username=" + user + "&password=" + pass
    + (if |agent| > 0 then "&agent=" + agent else "")
  }

  function LookupUrl(key: string, call: string): string
  {
    BaseUrl + "?s=" + key + "&callsign=" + call
  }

  /** The stripped text of node `name` in `content`, if it is there. */
  function TextOf(name: string, content: string): Option<string>
  {
    match Find(name, content)
    case None => None
    case Some(n) => Some(n.text)
  }

  /** The text `parse` returns is already stripped, so the client's own
      second `strip()` changes nothing. */
  lemma {:induction false} TextOfStripped(name: string, content: string)
    ensures TextOf(name, content).Some? ==> Strip(TextOf(name, content).value) == TextOf(name, content).value
  {
    var m := FindMatch(name, content);
    if m.Some? {
      StripIdempotent(content[m.value.gt + 1..m.value.close]);
    }
  }

  // ------------------------------------------------------------------
  // The client as a function of its state

  /** `set_credentials`: the `key` keyword is accepted and ignored. */
  function CredentialsSet(c: Client, user: string, pass: string, agent: string): (r: Client)
    ensures r.key == c.key && r.error == c.error && r.calldata == c.calldata && r.sent == c.sent
    ensures r.user == user && r.pass == pass && r.agent == agent
  {
    c.(user := user, pass := pass, agent := agent)
  }

  /** What the `try` block of `_http_request` and its handlers leave: a
      reply fills in status, info, final URL and body; a body that cannot
      be read leaves the final URL and the general handler's status and
      info; any other exception only status and info. */
  function Received(c: Client, reply: Reply): (r: Client)
    ensures r == c.(status := r.status, info := r.info, body := r.body, rspUri := r.rspUri)
    ensures !reply.Response? ==> r.body == c.body
    ensures !reply.Response? && !reply.ReadFailure? ==> r.rspUri == c.rspUri
    ensures reply.ReadFailure? ==> r.status == Some(-1) && r.info == reply.message && r.rspUri == reply.url
    ensures reply.Failure? ==> r.status == Some(-1) && r.info == reply.message
  {
    match reply
    case Response(st, url, inf, b) => c.(status := Some(st), info := inf, rspUri := url, body := b)
    case ReadFailure(url, message) => c.(status := Some(-1), info := message, rspUri := url)
    case HttpError(code, reason) => c.(status := Some(code), info := reason)
    case UrlError(errno, reason) => c.(status := errno, info := reason)
    case Failure(message) => c.(status := Some(-1), info := message)
  }

  /** `_http_request(uri)`: the body is cleared and the response URL set
      to the request URL before the request, which is then answered as
      `Received` says.  The request succeeds iff the status is 200. */
  function Requested(c: Client, transport: Transport, uri: string): (r: Step)
    ensures r.ok <==> r.client.status == Some(200)
    ensures r.client.sent == c.sent + [uri]
    ensures r.client == c.(status := r.client.status, info := r.client.info, body := r.client.body,
                           rspUri := r.client.rspUri, sent := c.sent + [uri])
    ensures !transport(|c.sent|, uri).Response? ==> r.client.body == ""
    ensures !transport(|c.sent|, uri).Response? && !transport(|c.sent|, uri).ReadFailure? ==> r.client.rspUri == uri
    ensures transport(|c.sent|, uri).ReadFailure? ==>
      !r.ok && r.client.status == Some(-1) && r.client.rspUri == transport(|c.sent|, uri).url
  {
    var c1 := c.(body := "", rspUri := uri, sent := c.sent + [uri]);
    var c2 := Received(c1, transport(|c.sent|, uri));
    Step(c2, c2.status == Some(200))
  }

  /** `_parse_session(content)`. */
  function SessionParsed(c: Client, content: string): (r: Step)
    ensures r.client == c.(key := r.client.key, error := r.client.error, msg := r.client.msg, sub := r.client.sub)
  {
    var c0 := c.(error := "", msg := "", sub := "");
    match TextOf("QRZDatabase", content)
    case None => Step(c0.(error := "QRZ QRZDatabase node not found"), false)
    case Some(db) =>
      match TextOf("Session", db)
      case None => Step(c0.(error := "QRZ Session node not found"), false)
      case Some(session) =>
        var key := TextOf("Key", session);
        var msg := TextOf("Message", session);
        var sub := TextOf("SubExp", session);
        var err := TextOf("Error", session);
        Step(c0.(key := if key.Some? then Strip(key.value) else c.key,
                 msg := if msg.Some? then Strip(msg.value) else "",
                 sub := if sub.Some? then Strip(sub.value) else "",
                 error := if err.Some? then Strip(err.value) else ""),
             err.None?)
  }

  /** The dictionary `_parse_callsign` builds from the element names of the
      callsign data, in order: a name whose node parses is (re)entered
      with its text, any other name is skipped. */
  function CallDataFrom(names: seq<string>, s: string): map<string, string>
  {
    if names == [] then map[]
    else
      var m := CallDataFrom(names[..|names| - 1], s);
      var e := names[|names| - 1];
      match TextOf(e, s)
      case None => m
      case Some(t) => m[e := t]
  }

  /** `_parse_callsign(content)`: a missing `QRZDatabase` node is reported
      in the error but still returns True. */
  function CallsignParsed(c: Client, content: string): (r: Step)
    ensures r.client == c.(calldata := r.client.calldata, error := r.client.error)
  {
    var c0 := c.(calldata := map[]);
    match TextOf("QRZDatabase", content)
    case None => Step(c0.(error := "QRZ QRZDatabase node not found"), true)
    case Some(db) =>
      match TextOf("Callsign", db)
      case None => Step(c0.(error := "QRZ Callsign node not found"), false)
      case Some(data) => Step(c0.(calldata := CallDataFrom(AllTags(data), data)), true)
  }

  /** `_qrz_lookup(call)`: without a key it reports an invalid key and
      sends nothing; with one, it sends exactly the lookup URL for the key
      and the call, built by plain concatenation. */
  function LookedUp(c: Client, transport: Transport, call: string): (r: Step)
    ensures |c.key| == 0 ==> !r.ok && r.client.error == InvalidKey && r.client.sent == c.sent
    ensures |c.key| > 0 ==> r.client.sent == c.sent + [LookupUrl(c.key, call)]
  {
    if |c.key| == 0 then Step(c.(error := InvalidKey), false)
    else
      var r := Requested(c, transport, LookupUrl(c.key, call));
      if !r.ok then r
      else
        var p := SessionParsed(r.client, r.client.body);
        if !p.ok then p
        else CallsignParsed(p.client, p.client.body)
  }

  /** `start_session()`: without a username or password it fails with the
      matching error and sends nothing; otherwise it sends the session URL
      once, with `&agent=` only for a non-empty agent. */
  function SessionStarted(c: Client, transport: Transport): (r: Step)
    ensures |c.user| == 0 ==> !r.ok && r.client.error == "QRZ username not set" && r.client.sent == c.sent
    ensures |c.user| > 0 && |c.pass| == 0 ==>
      !r.ok && r.client.error == "QRZ password not set" && r.client.sent == c.sent
    ensures |c.user| > 0 && |c.pass| > 0 ==> r.client.sent == c.sent + [SessionUrl(c.user, c.pass, c.agent)]
  {
    if |c.user| == 0 then Step(c.(error := "QRZ username not set"), false)
    else if |c.pass| == 0 then Step(c.(error := "QRZ password not set"), false)
    else
      var r := Requested(c, transport, SessionUrl(c.user, c.pass, c.agent));
      if r.ok then SessionParsed(r.client, r.client.body) else r
  }

  /** The first step of `lookup_callsign`: a client without a key starts a
      session; one with a key goes on as it is. */
  function SessionReady(c: Client, transport: Transport): Step
  {
    if |c.key| == 0 then SessionStarted(c, transport) else Step(c, true)
  }

  /** `lookup_callsign(call)`: start a session if there is no key, look up,
      and on an invalid key start one more session and look up once more. */
  function CallsignLookedUp(c: Client, transport: Transport, call: string): Step
  {
    var s1 := SessionReady(c, transport);
    if !s1.ok then s1
    else if |s1.client.key| == 0 then Step(s1.client, false)
    else
      var l1 := LookedUp(s1.client, transport, call);
      if l1.ok || l1.client.error != InvalidKey then l1
      else
        var s2 := SessionStarted(l1.client, transport);
        if !s2.ok then s2
        else if |s2.client.key| == 0 then Step(s2.client, false)
        else LookedUp(s2.client, transport, call)
  }

  /** What `get_file` collects from the lines of the credentials file: from
      the first line holding `<QRZLookup>` up to and including the next
      later line holding `</QRZLookup>`, each line stripped, all joined. */
  function XmlData(lines: seq<string>, inside: bool): string
  {
    if lines == [] then ""
    else
      var line := lines[0];
      if inside then
        Strip(line) + (if Contains(line, "</QRZLookup>") then "" else XmlData(lines[1..], true))
      else if Contains(line, "<QRZLookup>") then
        Strip(line) + XmlData(lines[1..], true)
      else XmlData(lines[1..], false)
  }

  /** `get_file(filename)`. */
  function FileLoaded(c: Client, file: CredentialsFile): Step
  {
    match file
    case Unreadable(message) => Step(c.(error := message), false)
    case Lines(lines) =>
      match TextOf("QRZLookup", XmlData(lines, false))
      case None => Step(c.(error := "QRZLookup node not found"), false)
      case Some(lookup) =>
        match TextOf("Session", lookup)
        case None => Step(c.(error := "Session node not found"), false)
        case Some(session) =>
          var user := TextOf("User", session);
          var pass := TextOf("Pass", session);
          var key := TextOf("SessKey", session);
          Step(c.(user := if user.Some? then user.value else c.user,
                  pass := if pass.Some? then pass.value else c.pass,
                  key := if key.Some? then key.value else c.key),
               true)
  }

  // ------------------------------------------------------------------
  // What the client promises

  /** `_parse_session` succeeds iff the `QRZDatabase` and `Session` nodes
      are there and no `Error` node is; it always clears error, message
      and subscription first, and touches nothing but them and the key. */
  lemma {:induction false} SessionParsedOk(c: Client, content: string)
    ensures var r := SessionParsed(c, content);
      r.ok <==> (TextOf("QRZDatabase", content).Some?
                 && TextOf("Session", TextOf("QRZDatabase", content).value).Some?
                 && TextOf("Error", TextOf("Session", TextOf("QRZDatabase", content).value).value).None?)
    ensures var r := SessionParsed(c, content);
      r.client == c.(key := r.client.key, error := r.client.error, msg := r.client.msg, sub := r.client.sub)
    ensures var r := SessionParsed(c, content);
      r.ok ==> r.client.error == ""
    ensures var r := SessionParsed(c, content);
      TextOf("QRZDatabase", content).None? ==> r.client.error == "QRZ QRZDatabase node not found"
  {
    hide Find;
  }

  /** The session key is taken from a `Key` node whenever there is one,
      even when an `Error` node reports a failure in the same reply. */
  lemma {:induction false} SessionKeyDespiteError(c: Client, content: string, db: string, session: string)
    requires TextOf("QRZDatabase", content) == Some(db)
    requires TextOf("Session", db) == Some(session)
    requires TextOf("Key", session).Some? && TextOf("Error", session).Some?
    ensures var r := SessionParsed(c, content);
      !r.ok && r.client.key == TextOf("Key", session).value
      && r.client.error == TextOf("Error", session).value
  {
    hide Find;
    TextOfStripped("Key", session);
    TextOfStripped("Error", session);
  }

  /** The dictionary holds exactly the names of the list whose node parses,
      each with its node's stripped text. */
  lemma {:induction false} CallDataSpec(names: seq<string>, s: string)
    ensures forall e :: e in CallDataFrom(names, s) <==> e in names && TextOf(e, s).Some?
    ensures forall e :: e in CallDataFrom(names, s) ==> CallDataFrom(names, s)[e] == TextOf(e, s).value
    decreases |names|
  {
    hide Find;
    if names != [] {
      var init := names[..|names| - 1];
      CallDataSpec(init, s);
      assert names == init + [names[|names| - 1]];
    }
  }

  /** After `_parse_callsign`, the call data are the element names inside
      the `Callsign` node that parse there, with their text; the old call
      data are gone in every case. */
  lemma {:induction false} CallsignParsedData(c: Client, content: string, data: string)
    requires TextOf("QRZDatabase", content).Some?
    requires TextOf("Callsign", TextOf("QRZDatabase", content).value) == Some(data)
    ensures var r := CallsignParsed(c, content);
      r.ok && r.client.error == c.error
      && (forall e :: e in r.client.calldata <==> e in AllTags(data) && TextOf(e, data).Some?)
      && (forall e :: e in r.client.calldata ==> r.client.calldata[e] == TextOf(e, data).value)
  {
    hide Find;
    CallDataSpec(AllTags(data), data);
  }

  /** Without a `QRZDatabase` node `_parse_callsign` reports the missing
      node but still succeeds, with the call data cleared. */
  lemma {:induction false} CallsignParsedWithoutDatabase(c: Client, content: string)
    requires TextOf("QRZDatabase", content).None?
    ensures var r := CallsignParsed(c, content);
      r.ok && r.client.calldata == map[] && r.client.error == "QRZ QRZDatabase node not found"
  {
    hide Find;
  }

  /** A lookup whose reply carries a session error, or that cannot be sent
      at all, leaves the call data as they were. */
  lemma {:induction false} LookedUpKeepsDataOnFailure(c: Client, transport: Transport, call: string)
    ensures var r := LookedUp(c, transport, call);
      var sessionFailed := |c.key| > 0
        && (!Requested(c, transport, LookupUrl(c.key, call)).ok
            || !SessionParsed(Requested(c, transport, LookupUrl(c.key, call)).client,
                              Requested(c, transport, LookupUrl(c.key, call)).client.body).ok);
      (|c.key| == 0 || sessionFailed) ==> !r.ok && r.client.calldata == c.calldata
  {
    hide Find;
  }

  /** A lookup whose request fails in transport leaves key, error, message
      and call data as they were: only status, info, body and response URL
      change, besides the request log. */
  lemma {:induction false} LookedUpTransportFailure(c: Client, transport: Transport, call: string)
    requires |c.key| > 0
    requires !Requested(c, transport, LookupUrl(c.key, call)).ok
    ensures var r := LookedUp(c, transport, call);
      !r.ok && r.client.key == c.key && r.client.error == c.error && r.client.msg == c.msg
      && r.client.sub == c.sub && r.client.calldata == c.calldata
  {
    hide Find;
  }

  /** A transport failure leaves key, error, message and call data as they
      were: only status, info, body and response URL change. */
  lemma {:induction false} SessionStartedTransportFailure(c: Client, transport: Transport)
    requires |c.user| > 0 && |c.pass| > 0
    requires !Requested(c, transport, SessionUrl(c.user, c.pass, c.agent)).ok
    ensures var r := SessionStarted(c, transport);
      !r.ok && r.client.key == c.key && r.client.error == c.error
      && r.client.msg == c.msg && r.client.calldata == c.calldata
  {
    hide Find;
  }

  /** The requests of a whole `lookup_callsign` are appended to the log,
      and there are at most four of them. */
  lemma {:induction false} CallsignLookedUpAtMostFour(c: Client, transport: Transport, call: string)
    ensures var r := CallsignLookedUp(c, transport, call);
      |c.sent| <= |r.client.sent| <= |c.sent| + 4 && r.client.sent[..|c.sent|] == c.sent
  {
    hide Find;
    var s1 := SessionReady(c, transport);
    var n := |c.sent|;
    assert n <= |s1.client.sent| <= n + 1 && s1.client.sent[..n] == c.sent;
    if s1.ok && |s1.client.key| > 0 {
      var l1 := LookedUp(s1.client, transport, call);
      assert l1.client.sent[..|s1.client.sent|] == s1.client.sent;
      assert n <= |l1.client.sent| <= n + 2 && l1.client.sent[..n] == c.sent;
      if !l1.ok && l1.client.error == InvalidKey {
        var s2 := SessionStarted(l1.client, transport);
        assert s2.client.sent[..|l1.client.sent|] == l1.client.sent;
        assert n <= |s2.client.sent| <= n + 3 && s2.client.sent[..n] == c.sent;
        if s2.ok && |s2.client.key| > 0 {
          var l2 := LookedUp(s2.client, transport, call);
          assert l2.client.sent[..|s2.client.sent|] == s2.client.sent;
          assert l2.client.sent[..n] == c.sent;
        }
      }
    }
  }

  /** A second session is started only when the first lookup failed with
      exactly the invalid-key error: any other failure is final, whether
      the key was held before or came from the first session. */
  lemma {:induction false} CallsignLookedUpReauthOnlyOnInvalidKey(c: Client, transport: Transport, call: string)
    requires SessionReady(c, transport).ok && |SessionReady(c, transport).client.key| > 0
    requires !LookedUp(SessionReady(c, transport).client, transport, call).ok
    requires LookedUp(SessionReady(c, transport).client, transport, call).client.error != InvalidKey
    ensures CallsignLookedUp(c, transport, call) == LookedUp(SessionReady(c, transport).client, transport, call)
  {
    hide Find;
  }

  /** Once a key is in hand (held before, or from the first session), an
      invalid-key answer makes `lookup_callsign` start a session and, if
      that yields a key, look up once more. */
  lemma {:induction false} CallsignLookedUpRetries(c: Client, transport: Transport, call: string)
    requires SessionReady(c, transport).ok && |SessionReady(c, transport).client.key| > 0
    requires !LookedUp(SessionReady(c, transport).client, transport, call).ok
    requires LookedUp(SessionReady(c, transport).client, transport, call).client.error == InvalidKey
    ensures var l1 := LookedUp(SessionReady(c, transport).client, transport, call);
      var s2 := SessionStarted(l1.client, transport);
      CallsignLookedUp(c, transport, call) ==
        if s2.ok && |s2.client.key| > 0 then LookedUp(s2.client, transport, call)
        else Step(s2.client, false)
  {
    hide Find;
  }

  /** A session that starts but yields no key ends the lookup with False
      before any lookup request. */
  lemma {:induction false} CallsignLookedUpNeedsKey(c: Client, transport: Transport, call: string)
    requires |c.key| == 0
    requires SessionStarted(c, transport).ok
    requires |SessionStarted(c, transport).client.key| == 0
    ensures CallsignLookedUp(c, transport, call) == Step(SessionStarted(c, transport).client, false)
  {
    hide Find;
  }

  /** Nothing outside the `<QRZLookup>` block of the file is collected: a
      file without the start tag yields no data, and `get_file` fails. */
  lemma {:induction false} XmlDataNeedsStart(lines: seq<string>)
    requires forall k :: 0 <= k < |lines| ==> !Contains(lines[k], "<QRZLookup>")
    ensures XmlData(lines, false) == ""
  {
    hide Find;
    if lines != [] {
      XmlDataNeedsStart(lines[1..]);
    }
  }

  lemma {:induction false} FileLoadedWithoutStart(c: Client, lines: seq<string>)
    requires forall k :: 0 <= k < |lines| ==> !Contains(lines[k], "<QRZLookup>")
    ensures FileLoaded(c, Lines(lines)) == Step(c.(error := "QRZLookup node not found"), false)
  {
    hide Find;
    XmlDataNeedsStart(lines);
    FindNeedsBothTags("QRZLookup", "");
  }

  /** `get_file` succeeds iff the collected data hold a `QRZLookup` node
      with a `Session` node inside; it only ever sets user, password, key
      and error, and it sends no request. */
  lemma {:induction false} FileLoadedSpec(c: Client, file: CredentialsFile)
    ensures var r := FileLoaded(c, file);
      r.ok <==> (file.Lines? && TextOf("QRZLookup", XmlData(file.lines, false)).Some?
                 && TextOf("Session", TextOf("QRZLookup", XmlData(file.lines, false)).value).Some?)
    ensures var r := FileLoaded(c, file);
      r.client == c.(user := r.client.user, pass := r.client.pass, key := r.client.key, error := r.client.error)
    ensures var r := FileLoaded(c, file);
      r.ok ==> r.client.error == c.error
  {
    hide Find;
  }

  /** The node names the client asks for contain no regex metacharacter. */
  lemma {:induction false} ReplyNamesAreLiteral()
    ensures IsLiteralName("QRZDatabase") && IsLiteralName("Session") && IsLiteralName("Callsign")
    ensures IsLiteralName("Key") && IsLiteralName("Message") && IsLiteralName("SubExp") && IsLiteralName("Error")
  {
  }

  lemma {:induction false} FileNamesAreLiteral()
    ensures IsLiteralName("QRZLookup") && IsLiteralName("Session")
    ensures IsLiteralName("User") && IsLiteralName("Pass") && IsLiteralName("SessKey")
  {
  }

  // ------------------------------------------------------------------
  // The class

  /** A `qrzlookup` object. */
  class QrzLookup {
    var user: string
    var pass: string
    var agent: string
    var key: string
    var error: string
    var msg: string
    var sub: string
    var calldata: map<string, string>
    var status: Option<int>
    var info: string
    var body: string
    var rspUri: string
    var sent: seq<string>
    const transport: Transport
    const xml: XmlNode

    function State(): Client
      reads this
    {
      Client(user, pass, agent, key, error, msg, sub, calldata, status, info, body, rspUri, sent)
    }

    constructor (transport: Transport)
      ensures State() == Initial() && this.transport == transport
    {
      user, pass, agent, key := "", "", "", "";
      error, msg, sub := "", "", "";
      calldata := map[];
      status, info, body, rspUri := Some(0), "", "", "";
      sent := [];
      this.transport := transport;
      xml := new XmlNode();
    }

    /** `call_data()`. */
    function CallData(): (data: map<string, string>)
      reads this
      ensures data == State().calldata
    {
      calldata
    }

    /** `get_field(field)`: the stored value, or the empty string. */
    function GetField(field: string): (value: string)
      reads this
      ensures field in calldata ==> value == calldata[field]
      ensures field !in calldata ==> value == ""
    {
      if field in calldata then calldata[field] else ""
    }

    /** `get_error()`. */
    function GetError(): (r: string)
      reads this
      ensures r == State().error
    {
      error
    }

    /** `get_message()`. */
    function GetMessage(): (r: string)
      reads this
      ensures r == State().msg
    {
      msg
    }

    method SetCredentials(user: string, pass: string, agent: string)
      modifies this
      ensures State() == CredentialsSet(old(State()), user, pass, agent)
    {
      hide Find;
      this.user := user;
      this.pass := pass;
      this.agent := agent;
    }

    method HttpRequest(uri: string) returns (ok: bool)
      modifies this
      ensures Step(State(), ok) == Requested(old(State()), transport, uri)
    {
      hide Find;
      body := "";
      rspUri := uri;
      var reply := transport(|sent|, uri);
      sent := sent + [uri];
      Receive(reply);
      ok := status == Some(200);
    }

    /** The `try` block of `_http_request` and its exception handlers. */
    method Receive(reply: Reply)
      modifies this`status, this`info, this`rspUri, this`body
      ensures State() == Received(old(State()), reply)
    {
      match reply {
        case Response(st, url, inf, b) =>
          status, info, rspUri, body := Some(st), inf, url, b;
        case ReadFailure(url, message) =>
          rspUri := url;
          status, info := Some(-1), message;
        case HttpError(code, reason) =>
          status, info := Some(code), reason;
        case UrlError(errno, reason) =>
          status, info := errno, reason;
        case Failure(message) =>
          status, info := Some(-1), message;
      }
    }

    method ParseSession(content: string) returns (ok: bool)
      modifies this, xml
      ensures Step(State(), ok) == SessionParsed(old(State()), content)
    {
      hide Find;
      hide Strip;
      ReplyNamesAreLiteral();
      ok := true;
      error, msg, sub := "", "", "";
      var found := xml.Parse("QRZDatabase", content);
      if found {
        var db := xml.NodeText();
        assert TextOf("QRZDatabase", content) == Some(db);
        found := xml.Parse("Session", db);
        if found {
          var session := xml.NodeText();
          assert TextOf("Session", db) == Some(session);
          ok := ReadSession(session);
        } else {
          error := "QRZ Session node not found";
          ok := false;
        }
      } else {
        error := "QRZ QRZDatabase node not found";
        ok := false;
      }
    }

    /** The fields of the `Session` node `_parse_session` reads, one after
        the other; `error`, `msg` and `sub` have been cleared before. */
    method ReadSession(session: string) returns (ok: bool)
      requires error == "" && msg == "" && sub == ""
      modifies this`key, this`msg, this`sub, this`error, xml
      ensures key == if TextOf("Key", session).Some? then Strip(TextOf("Key", session).value) else old(key)
      ensures msg == if TextOf("Message", session).Some? then Strip(TextOf("Message", session).value) else ""
      ensures sub == if TextOf("SubExp", session).Some? then Strip(TextOf("SubExp", session).value) else ""
      ensures error == if TextOf("Error", session).Some? then Strip(TextOf("Error", session).value) else ""
      ensures ok == TextOf("Error", session).None?
    {
      hide Find;
      ReplyNamesAreLiteral();
      ok := true;
      var found, text := StrippedText("Key", session);
      if found {
        key := text;
      }
      found, text := StrippedText("Message", session);
      if found {
        msg := text;
      }
      found, text := StrippedText("SubExp", session);
      if found {
        sub := text;
      }
      found, text := StrippedText("Error", session);
      if found {
        error := text;
        ok := false;
      }
    }

    /** `self._xml.parse(name, session)` followed, when it succeeds, by
        `self._xml.node_text().strip()`. */
    method StrippedText(name: string, session: string) returns (found: bool, text: string)
      requires IsLiteralName(name)
      modifies xml
      ensures found == TextOf(name, session).Some?
      ensures found ==> text == Strip(TextOf(name, session).value)
    {
      hide Find;
      found := xml.Parse(name, session);
      text := "";
      if found {
        text := Strip(xml.NodeText());
      }
    }

    method ParseCallsign(content: string) returns (ok: bool)
      modifies this, xml
      ensures Step(State(), ok) == CallsignParsed(old(State()), content)
    {
      hide Find;
      ReplyNamesAreLiteral();
      ok := true;
      calldata := map[];
      var found := xml.Parse("QRZDatabase", content);
      if found {
        var db := xml.NodeText();
        assert TextOf("QRZDatabase", content) == Some(db);
        found := xml.Parse("Callsign", db);
        if found {
          var data := xml.NodeText();
          assert TextOf("Callsign", db) == Some(data);
          var names := xml.ElementNames(data);
          AddCallData(names, data);
        } else {
          error := "QRZ Callsign node not found";
          ok := false;
        }
      } else {
        error := "QRZ QRZDatabase node not found";
      }
    }

    /** The loop of `_parse_callsign` that enters each element name whose
        node parses into the (cleared) dictionary. */
    method AddCallData(names: seq<string>, data: string)
      requires calldata == map[]
      requires forall e :: e in names ==> IsWordName(e)
      modifies this`calldata, xml
      ensures calldata == CallDataFrom(names, data)
    {
      hide Find;
      for i := 0 to |names|
        invariant calldata == CallDataFrom(names[..i], data)
      {
        var e := names[i];
        assert e in names;
        WordNameIsLiteral(e);
        var found := xml.Parse(e, data);
        if found {
          calldata := calldata[e := xml.NodeText()];
        }
        assert names[..i + 1][..i] == names[..i];
      }
      assert names[..|names|] == names;
    }

    /** `_qrz_lookup(call)`. */
    method Lookup(call: string) returns (ok: bool)
      modifies this, xml
      ensures Step(State(), ok) == LookedUp(old(State()), transport, call)
    {
      hide Find;
      if |key| == 0 {
        error := InvalidKey;
        return false;
      }
      var uri := BaseUrl + "?s=" + key + "&callsign=" + call;
      ok := HttpRequest(uri);
      if ok {
        ok := ParseSession(body);
        if !ok {
          return ok;
        }
        ok := ParseCallsign(body);
      }
    }

    method StartSession() returns (ok: bool)
      modifies this, xml
      ensures Step(State(), ok) == SessionStarted(old(State()), transport)
    {
      hide Find;
      if |user| == 0 {
        error := "QRZ username not set";
        return false;
      }
      if |pass| == 0 {
        error := "QRZ password not set";
        return false;
      }
      var uri := BaseUrl + "?username=" + user + "&password=" + pass;
      if |agent| > 0 {
        uri := uri + "&agent=" + agent;
      }
      assert uri == SessionUrl(user, pass, agent);
      ok := HttpRequest(uri);
      if ok {
        ok := ParseSession(body);
      }
    }

    method LookupCallsign(call: string) returns (ok: bool)
      modifies this, xml
      ensures Step(State(), ok) == CallsignLookedUp(old(State()), transport, call)
    {
      hide Find;
      if |key| == 0 {
        ok := StartSession();
        if !ok {
          return false;
        }
      }
      if |key| == 0 {
        return false;
      }
      ok := Lookup(call);
      if ok {
        return true;
      } else {
        if error == InvalidKey {
          ok := StartSession();
          if !ok {
            return false;
          }
        } else {
          return false;
        }
      }
      if |key| == 0 {
        return false;
      }
      ok := Lookup(call);
    }

    /** The line loop of `get_file`: the lines from the one holding
        `<QRZLookup>` through the next later one holding `</QRZLookup>`,
        stripped and joined. */
    method CollectXml(lines: seq<string>) returns (data: string)
      ensures data == XmlData(lines, false)
    {
      hide Find;
      var inside := false;
      data := "";
      var i := 0;
      while i < |lines|
        invariant 0 <= i <= |lines|
        invariant data + XmlData(lines[i..], inside) == XmlData(lines, false)
      {
        var line := lines[i];
        assert lines[i..][1..] == lines[i + 1..];
        if inside {
          data := data + Strip(line);
          if Contains(line, "</QRZLookup>") {
            inside := false;
            break;
          }
        } else {
          if Contains(line, "<QRZLookup>") {
            data := data + Strip(line);
            inside := true;
          }
        }
        i := i + 1;
      }
    }

    /** The optional `User`, `Pass` and `SessKey` nodes of the credentials
        file's `Session` node, read one after the other. */
    method ReadCredentials(node: XmlNode, session: string)
      modifies this`user, this`pass, this`key, node
      ensures user == if TextOf("User", session).Some? then TextOf("User", session).value else old(user)
      ensures pass == if TextOf("Pass", session).Some? then TextOf("Pass", session).value else old(pass)
      ensures key == if TextOf("SessKey", session).Some? then TextOf("SessKey", session).value else old(key)
    {
      hide Find;
      FileNamesAreLiteral();
      var found := node.Parse("User", session);
      if found {
        user := node.NodeText();
      }
      found := node.Parse("Pass", session);
      if found {
        pass := node.NodeText();
      }
      found := node.Parse("SessKey", session);
      if found {
        key := node.NodeText();
      }
    }

    /** `get_file(filename)`, with the file given by its lines. */
    method GetFile(file: CredentialsFile) returns (ok: bool)
      modifies this
      ensures Step(State(), ok) == FileLoaded(old(State()), file)
    {
      hide Find;
      ok := false;
      if file.Unreadable? {
        error := file.message;
        return ok;
      }
      var data := CollectXml(file.lines);
      FileNamesAreLiteral();
      var node := new XmlNode();
      var found := node.Parse("QRZLookup", data);
      if found {
        var lookup := node.NodeText();
        assert TextOf("QRZLookup", data) == Some(lookup);
        found := node.Parse("Session", lookup);
        if found {
          var session := node.NodeText();
          ReadCredentials(node, session);
          ok := true;
        } else {
          error := "Session node not found";
        }
      } else {
        error := "QRZLookup node not found";
      }
    }
  }
}
