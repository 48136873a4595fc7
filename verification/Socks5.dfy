/**
 The SOCKS5 exchange of proxy mode, from src/relay.cpp: RFC 1928 (sections 3, 4 and 6)
 and the user/password sub-negotiation of RFC 1929 (section 2).
 */
module Socks5 {
  import opened Text

  datatype Auth = Auth(userpass: bool, username: seq<Byte>, password: seq<Byte>)

  datatype Host = IPv4(a: Byte, b: Byte, c: Byte, d: Byte) | Domain(name: seq<Byte>)

  datatype Target = Target(host: Host, port: nat)

  /** How an exchange ends; the tunnel gets the bytes not consumed. */
  datatype Outcome = NotSocks | Closed | Refused(target: Target) | Tunnel(target: Target, rest: seq<Byte>)

  datatype Reply = Reply(sent: seq<Byte>, outcome: Outcome)

  const VERSION: Byte := 5
  const NO_AUTH: Byte := 0
  const USER_PASS: Byte := 2
  const NO_METHOD: Byte := 255

  const SUCCESS: seq<Byte> := [5, 0, 0, 1, 0, 0, 0, 0, 0, 0]
  const FAILURE: seq<Byte> := [5, 1, 0, 1, 0, 0, 0, 0, 0, 0]

  // ---- The exchange as a function of the whole input ----

  /** The method answered: user/password when configured, otherwise none, if the client offers it. */
  function Select(auth: Auth, methods: seq<Byte>): Byte {
    if auth.userpass && USER_PASS in methods then USER_PASS
    else if !auth.userpass && NO_AUTH in methods then NO_AUTH
    else NO_METHOD
  }

  function After(sent: seq<Byte>, reply: Reply): Reply {
    reply.(sent := sent + reply.sent)
  }

  const CLOSED := Reply([], Closed)

  function Negotiate(auth: Auth, reachable: Target -> bool, input: seq<Byte>): Reply {
    if input == [] || input[0] != VERSION then Reply([], NotSocks)
    else if |input| < 2 then CLOSED
    else Greeting(auth, reachable, input[1], input[2..])
  }

  function Greeting(auth: Auth, reachable: Target -> bool, n: int, input: seq<Byte>): Reply {
    if n < 1 || |input| < n then CLOSED
    else
      var chosen := Select(auth, input[..n]);
      if chosen == NO_METHOD then Reply([VERSION, NO_METHOD], Closed)
      else
        After([VERSION, chosen],
              if auth.userpass then LogIn(auth, reachable, input[n..]) else Request(reachable, input[n..]))
  }

  function LogIn(auth: Auth, reachable: Target -> bool, input: seq<Byte>): Reply {
    if |input| < 2 then CLOSED else LogInUser(auth, reachable, input[1], input[2..])
  }

  function LogInUser(auth: Auth, reachable: Target -> bool, n: int, input: seq<Byte>): Reply {
    if n < 1 || |input| < n then CLOSED else LogInLength(auth, reachable, input[..n], input[n..])
  }

  function LogInLength(auth: Auth, reachable: Target -> bool, user: seq<Byte>, input: seq<Byte>): Reply {
    if |input| < 1 then CLOSED else LogInPassword(auth, reachable, user, input[0], input[1..])
  }

  function LogInPassword(auth: Auth, reachable: Target -> bool, user: seq<Byte>, n: int, input: seq<Byte>): Reply {
    if n < 1 || |input| < n then CLOSED
    else if user == auth.username && input[..n] == auth.password then After([1, 0], Request(reachable, input[n..]))
    else Reply([1, 1], Closed)
  }

  function Request(reachable: Target -> bool, input: seq<Byte>): Reply {
    if |input| < 4 || input[1] != 1 then CLOSED
    else Address(reachable, input[3], input[4..])
  }

  function Address(reachable: Target -> bool, atyp: Byte, input: seq<Byte>): Reply {
    if atyp == 1 then
      if |input| < 4 then CLOSED
      else Connect(reachable, Some(IPv4(input[0], input[1], input[2], input[3])), input[4..])
    else if atyp == 3 then
      if |input| < 1 then CLOSED else DomainName(reachable, input[0], input[1..])
    else if atyp == 4 then CLOSED
    else Connect(reachable, None, input)
  }

  function DomainName(reachable: Target -> bool, n: int, input: seq<Byte>): Reply {
    if n < 1 || |input| < n then CLOSED else Connect(reachable, Some(Domain(input[..n])), input[n..])
  }

  function PortOf(high: int, low: int): int {
    256 * high + low
  }

  function Connect(reachable: Target -> bool, host: Option<Host>, input: seq<Byte>): Reply {
    if |input| < 2 then CLOSED
    else
      var port := PortOf(input[0], input[1]);
      if host.None? || port <= 0 then CLOSED
      else
        var target := Target(host.value, port);
        if reachable(target) then Reply(SUCCESS, Tunnel(target, input[2..])) else Reply(FAILURE, Refused(target))
  }

  // ---- The exchange as the program runs it ----

  /** A connection: the bytes still to arrive before the end of the stream, and those sent back. */
  class Client {
    var input: seq<Byte>
    var output: seq<Byte>

    constructor (input: seq<Byte>)
      ensures this.input == input && output == []
    {
      this.input := input;
      output := [];
    }

    /** One read: any number of the bytes asked for, none only at the end. */
    method Read(n: nat) returns (chunk: seq<Byte>)
      requires n > 0
      modifies this`input
      ensures |chunk| <= n && old(input) == chunk + input
      ensures chunk == [] <==> old(input) == []
    {
      if input == [] {
        return [];
      }
      var k :| 1 <= k <= n && k <= |input|;
      chunk, input := input[..k], input[k..];
    }

    /** A peek sees at least one byte, when there is one. */
    method Peek() returns (chunk: seq<Byte>)
      ensures chunk <= input && |chunk| <= 8
      ensures chunk == [] <==> input == []
    {
      if input == [] {
        return [];
      }
      var k :| 1 <= k <= 8 && k <= |input|;
      chunk := input[..k];
    }

    method Write(bytes: seq<Byte>)
      modifies this`output
      ensures output == old(output) + bytes
    {
      output := output + bytes;
    }

    /** recv_exact: however the reads fall, it gets the first n bytes or reports fewer. */
    method RecvExact(n: nat) returns (buf: seq<Byte>, count: int)
      modifies this`input
      ensures old(|input|) >= n ==> buf == old(input)[..n] && input == old(input)[n..] && count == n
      ensures old(|input|) < n ==> count != n
    {
      buf := [];
      while |buf| < n
        invariant |buf| <= n && old(input) == buf + input
        decreases n - |buf|
      {
        var r := Read(n - |buf|);
        if r == [] {
          return buf, if |buf| > 0 then |buf| else -1;
        }
        buf := buf + r;
      }
      count := n;
    }

    /** The scan of the offered methods and the choice among them. */
    method Choose(auth: Auth, methods: seq<Byte>) returns (chosen: Byte)
      ensures chosen == Select(auth, methods)
    {
      var hasNoAuth, hasUserPass := false, false;
      for i := 0 to |methods|
        invariant hasNoAuth == (NO_AUTH in methods[..i]) && hasUserPass == (USER_PASS in methods[..i])
      {
        if methods[i] == NO_AUTH {
          hasNoAuth := true;
        }
        if methods[i] == USER_PASS {
          hasUserPass := true;
        }
      }
      chosen := NO_METHOD;
      if auth.userpass && hasUserPass {
        chosen := USER_PASS;
      } else if !auth.userpass && hasNoAuth {
        chosen := NO_AUTH;
      }
    }

    /** From detection to tunnel. */
    method Serve(auth: Auth, reachable: Target -> bool) returns (outcome: Outcome)
      modifies this
      ensures Reply(output, outcome) == After(old(output), Negotiate(auth, reachable, old(input)))
      ensures outcome.Tunnel? ==> input == outcome.rest
    {
      hide Greeting;
      var first := Peek();
      if first == [] || first[0] != VERSION {
        return NotSocks;
      }
      var buf, count := RecvExact(2);
      if count != 2 {
        return Closed;
      }
      outcome := ServeGreeting(auth, reachable, buf[1]);
    }

    method ServeGreeting(auth: Auth, reachable: Target -> bool, n: int) returns (outcome: Outcome)
      modifies this
      ensures Reply(output, outcome) == After(old(output), Greeting(auth, reachable, n, old(input)))
      ensures outcome.Tunnel? ==> input == outcome.rest
    {
      hide Select, LogIn, Request;
      if n < 1 {
        return Closed;
      }
      var buf, count := RecvExact(n);
      if count != n {
        return Closed;
      }
      var m := Choose(auth, buf);
      Write([VERSION, m]);
      if m == NO_METHOD {
        return Closed;
      }
      if auth.userpass {
        outcome := ServeLogIn(auth, reachable);
      } else {
        outcome := ServeRequest(reachable);
      }
    }

    method ServeLogIn(auth: Auth, reachable: Target -> bool) returns (outcome: Outcome)
      modifies this
      ensures Reply(output, outcome) == After(old(output), LogIn(auth, reachable, old(input)))
      ensures outcome.Tunnel? ==> input == outcome.rest
    {
      hide LogInPassword;
      var buf, count := RecvExact(2);
      if count != 2 {
        return Closed;
      }
      var ulen: int := buf[1];
      if ulen < 1 {
        return Closed;
      }
      buf, count := RecvExact(ulen);
      if count != ulen {
        return Closed;
      }
      var user := buf;
      buf, count := RecvExact(1);
      if count != 1 {
        return Closed;
      }
      outcome := ServePassword(auth, reachable, user, buf[0]);
    }

    method ServePassword(auth: Auth, reachable: Target -> bool, user: seq<Byte>, plen: int) returns (outcome: Outcome)
      modifies this
      ensures Reply(output, outcome) == After(old(output), LogInPassword(auth, reachable, user, plen, old(input)))
      ensures outcome.Tunnel? ==> input == outcome.rest
    {
      hide Request;
      if plen < 1 {
        return Closed;
      }
      var buf, count := RecvExact(plen);
      if count != plen {
        return Closed;
      }
      var ok := user == auth.username && buf == auth.password;
      Write([1, if ok then 0 else 1]);
      if !ok {
        return Closed;
      }
      outcome := ServeRequest(reachable);
    }

    method ServeRequest(reachable: Target -> bool) returns (outcome: Outcome)
      modifies this
      ensures Reply(output, outcome) == After(old(output), Request(reachable, old(input)))
      ensures outcome.Tunnel? ==> input == outcome.rest
    {
      hide Connect;
      var hdr, count := RecvExact(4);
      if count != 4 {
        return Closed;
      }
      if hdr[1] != 1 {
        return Closed;
      }
      var host := None;
      if hdr[3] == 1 {
        var addr;
        addr, count := RecvExact(4);
        if count != 4 {
          return Closed;
        }
        host := Some(IPv4(addr[0], addr[1], addr[2], addr[3]));
      } else if hdr[3] == 3 {
        var len;
        len, count := RecvExact(1);
        if count != 1 {
          return Closed;
        }
        var dlen: int := len[0];
        if dlen < 1 {
          return Closed;
        }
        var name;
        name, count := RecvExact(dlen);
        if count != dlen {
          return Closed;
        }
        host := Some(Domain(name));
      } else if hdr[3] == 4 {
        return Closed;
      }
      outcome := ServeConnect(reachable, host);
    }

    method ServeConnect(reachable: Target -> bool, host: Option<Host>) returns (outcome: Outcome)
      modifies this
      ensures Reply(output, outcome) == After(old(output), Connect(reachable, host, old(input)))
      ensures outcome.Tunnel? ==> input == outcome.rest
    {
      var bytes, count := RecvExact(2);
      if count != 2 {
        return Closed;
      }
      var port := PortOf(bytes[0], bytes[1]);
      if host.None? || port <= 0 {
        return Closed;
      }
      var target := Target(host.value, port);
      if !reachable(target) {
        Write(FAILURE);
        return Refused(target);
      }
      Write(SUCCESS);
      outcome := Tunnel(target, input);
    }
  }

  // ---- What clients send, as the two standards lay it out ----

  /** A client's side of an exchange; the version and reserved bytes are whatever it likes but the first. */
  datatype Session = Session(
    methods: seq<Byte>,
    loginVersion: Byte, user: seq<Byte>, password: seq<Byte>,
    version: Byte, reserved: Byte, target: Target,
    rest: seq<Byte>)

  predicate Short(s: seq<Byte>) {
    1 <= |s| < 256
  }

  predicate WfTarget(t: Target) {
    1 <= t.port < 65536 && (t.host.Domain? ==> Short(t.host.name))
  }

  predicate WfSession(s: Session) {
    Short(s.methods) && Short(s.user) && Short(s.password) && WfTarget(s.target)
  }

  function Prefixed(s: seq<Byte>): seq<Byte>
    requires Short(s)
  {
    [|s| as Byte] + s
  }

  function HostBytes(host: Host): seq<Byte>
    requires host.Domain? ==> Short(host.name)
  {
    match host
    case IPv4(a, b, c, d) => [1, a, b, c, d]
    case Domain(name) => [3] + Prefixed(name)
  }

  function PortBytes(port: nat): seq<Byte>
    requires port < 65536
  {
    [port / 256, port % 256]
  }

  function LogInBytes(s: Session): seq<Byte>
    requires WfSession(s)
  {
    [s.loginVersion] + Prefixed(s.user) + Prefixed(s.password)
  }

  function RequestBytes(s: Session): seq<Byte>
    requires WfSession(s)
  {
    [s.version, 1, s.reserved] + HostBytes(s.target.host) + PortBytes(s.target.port)
  }

  function SessionBytes(auth: Auth, s: Session): seq<Byte>
    requires WfSession(s)
  {
    [5] + Prefixed(s.methods) + ((if auth.userpass then LogInBytes(s) else []) + (RequestBytes(s) + s.rest))
  }

  predicate Offered(auth: Auth, s: Session) {
    if auth.userpass then 2 in s.methods else 0 in s.methods
  }

  predicate Granted(auth: Auth, s: Session) {
    Offered(auth, s) && (auth.userpass ==> s.user == auth.username && s.password == auth.password)
  }

  // ---- Every session gets the reply it should ----

  lemma DomainReads(reachable: Target -> bool, name: seq<Byte>, rest: seq<Byte>)
    requires Short(name)
    ensures Address(reachable, 3, Prefixed(name) + rest) == Connect(reachable, Some(Domain(name)), rest)
  {
    hide Connect;
    var n, bytes := |name|, Prefixed(name) + rest;
    assert bytes[0] == n && bytes[1..] == name + rest;
  }

  lemma AddressReads(reachable: Target -> bool, host: Host, rest: seq<Byte>)
    requires host.Domain? ==> Short(host.name)
    ensures var bytes := HostBytes(host) + rest;
            Address(reachable, bytes[0], bytes[1..]) == Connect(reachable, Some(host), rest)
  {
    hide Connect, Prefixed, DomainName;
    var bytes := HostBytes(host) + rest;
    match host {
      case IPv4(a, b, c, d) =>
        assert bytes[1..] == [a, b, c, d] + rest;
        assert bytes[1..][4..] == rest;
      case Domain(name) =>
        DomainReads(reachable, name, rest);
        assert bytes[1..] == Prefixed(name) + rest;
    }
  }

  lemma ConnectReads(reachable: Target -> bool, host: Host, port: nat, rest: seq<Byte>)
    requires 1 <= port < 65536
    ensures Connect(reachable, Some(host), PortBytes(port) + rest) ==
            (if reachable(Target(host, port)) then Reply(SUCCESS, Tunnel(Target(host, port), rest))
             else Reply(FAILURE, Refused(Target(host, port))))
  {
    var input := PortBytes(port) + rest;
    assert input[2..] == rest && PortOf(input[0], input[1]) == port;
  }

  lemma RequestReads(reachable: Target -> bool, s: Session)
    requires WfSession(s)
    ensures Request(reachable, RequestBytes(s) + s.rest)
         == if reachable(s.target) then Reply(SUCCESS, Tunnel(s.target, s.rest))
            else Reply(FAILURE, Refused(s.target))
  {
    hide Connect, Address;
    var host, port := s.target.host, PortBytes(s.target.port);
    var input := RequestBytes(s) + s.rest;
    var tail := HostBytes(host) + (port + s.rest);
    assert input == [s.version, 1, s.reserved] + tail;
    assert input[3] == tail[0] && input[4..] == tail[1..];
    AddressReads(reachable, host, port + s.rest);
    ConnectReads(reachable, host, s.target.port, s.rest);
  }

  lemma LogInReads(auth: Auth, reachable: Target -> bool, s: Session, rest: seq<Byte>)
    requires WfSession(s)
    ensures LogIn(auth, reachable, LogInBytes(s) + rest) ==
            (if s.user == auth.username && s.password == auth.password then After([1, 0], Request(reachable, rest))
             else Reply([1, 1], Closed))
  {
    hide Request;
    var u, p := |s.user|, |s.password|;
    var afterUser := [p as Byte] + (s.password + rest);
    var input := LogInBytes(s) + rest;
    assert input == [s.loginVersion, u as Byte] + (s.user + afterUser);
    assert input[1] == u && input[2..] == s.user + afterUser;
    assert (s.user + afterUser)[..u] == s.user && (s.user + afterUser)[u..] == afterUser;
    assert afterUser[0] == p && afterUser[1..] == s.password + rest;
    assert (s.password + rest)[..p] == s.password && (s.password + rest)[p..] == rest;
  }

  /** The bytes sent and the end of the exchange, for every session, in the numbers of the two standards. */
  function Expected(auth: Auth, reachable: Target -> bool, s: Session): Reply {
    if !Offered(auth, s) then Reply([5, 255], Closed)
    else if !Granted(auth, s) then Reply([5, 2, 1, 1], Closed)
    else
      var greeted := if auth.userpass then [5, 2, 1, 0] else [5, 0];
      if reachable(s.target) then Reply(greeted + [5, 0, 0, 1, 0, 0, 0, 0, 0, 0], Tunnel(s.target, s.rest))
      else Reply(greeted + [5, 1, 0, 1, 0, 0, 0, 0, 0, 0], Refused(s.target))
  }

  lemma PrefixedReads(version: Byte, s: seq<Byte>, rest: seq<Byte>)
    requires Short(s)
    ensures var input := [version] + Prefixed(s) + rest;
      && |input| >= 2 + |s| && input[0] == version && input[1] == |s| && input[2..] == s + rest
      && (s + rest)[..|s|] == s && (s + rest)[|s|..] == rest
  {
  }

  /** The greeting of a session, up to the bytes behind it. */
  lemma GreetingReads(auth: Auth, reachable: Target -> bool, s: Session, more: seq<Byte>)
    requires WfSession(s)
    ensures Negotiate(auth, reachable, [VERSION] + Prefixed(s.methods) + more) ==
            (if !Offered(auth, s) then Reply([VERSION, NO_METHOD], Closed)
             else After([VERSION, if auth.userpass then USER_PASS else NO_AUTH],
                        if auth.userpass then LogIn(auth, reachable, more) else Request(reachable, more)))
  {
    hide Request, LogIn, Prefixed;
    PrefixedReads(VERSION, s.methods, more);
  }

  /** Every session is answered as expected, and the tunnel starts exactly after the request. */
  lemma SessionReplies(auth: Auth, reachable: Target -> bool, s: Session)
    requires WfSession(s)
    ensures Negotiate(auth, reachable, SessionBytes(auth, s)) == Expected(auth, reachable, s)
  {
    hide Negotiate, Request, LogIn, RequestBytes, LogInBytes, Prefixed;
    var request := RequestBytes(s) + s.rest;
    var more := (if auth.userpass then LogInBytes(s) else []) + request;
    GreetingReads(auth, reachable, s, more);
    RequestReads(reachable, s);
    if auth.userpass {
      LogInReads(auth, reachable, s, request);
    } else {
      assert more == request;
    }
  }

  // ---- Nothing else opens a tunnel ----

  lemma ConnectOnly(reachable: Target -> bool, host: Option<Host>, input: seq<Byte>)
    requires Connect(reachable, host, input).outcome.Tunnel?
    ensures var o := Connect(reachable, host, input).outcome;
      && host == Some(o.target.host) && 1 <= o.target.port < 65536 && reachable(o.target)
      && input == PortBytes(o.target.port) + o.rest
  {
    var port := PortOf(input[0], input[1]);
    assert port / 256 == input[0] && port % 256 == input[1];
    assert input == [input[0], input[1]] + input[2..];
  }

  lemma AddressOnly(reachable: Target -> bool, atyp: Byte, input: seq<Byte>)
    requires Address(reachable, atyp, input).outcome.Tunnel?
    ensures var o := Address(reachable, atyp, input).outcome;
      && WfTarget(o.target) && reachable(o.target)
      && [atyp] + input == HostBytes(o.target.host) + (PortBytes(o.target.port) + o.rest)
  {
    hide Connect, PortBytes;
    if atyp == 1 {
      ConnectOnly(reachable, Some(IPv4(input[0], input[1], input[2], input[3])), input[4..]);
      assert input == [input[0], input[1], input[2], input[3]] + input[4..];
      assert [atyp] + input == [1, input[0], input[1], input[2], input[3]] + input[4..];
    } else if atyp == 3 {
      var n, after := input[0] as int, input[1..];
      var name := after[..n];
      ConnectOnly(reachable, Some(Domain(name)), after[n..]);
      assert input == [input[0]] + after && after == name + after[n..];
      assert [atyp] + input == [3] + ([n as Byte] + name) + after[n..];
    } else {
      ConnectOnly(reachable, None, input);
    }
  }

  lemma RequestOnly(reachable: Target -> bool, input: seq<Byte>)
    requires Request(reachable, input).outcome.Tunnel?
    ensures var o := Request(reachable, input).outcome;
      && WfTarget(o.target) && reachable(o.target) && |input| >= 4
      && input == [input[0], 1, input[2]] + HostBytes(o.target.host) + PortBytes(o.target.port) + o.rest
  {
    hide Connect, Address, PortBytes, HostBytes;
    AddressOnly(reachable, input[3], input[4..]);
    assert input == [input[0], 1, input[2]] + ([input[3]] + input[4..]);
  }

  lemma PasswordOnly(auth: Auth, reachable: Target -> bool, user: seq<Byte>, input: seq<Byte>) returns (rest: seq<Byte>)
    requires LogInLength(auth, reachable, user, input).outcome.Tunnel?
    ensures user == auth.username && Short(auth.password) && input == Prefixed(auth.password) + rest
    ensures Request(reachable, rest).outcome == LogInLength(auth, reachable, user, input).outcome
  {
    hide Request;
    var n, last := input[0] as int, input[1..];
    rest := last[n..];
  }

  lemma LogInOnly(auth: Auth, reachable: Target -> bool, input: seq<Byte>) returns (rest: seq<Byte>)
    requires LogIn(auth, reachable, input).outcome.Tunnel?
    ensures Short(auth.username) && Short(auth.password) && |input| >= 1
    ensures input == [input[0]] + Prefixed(auth.username) + Prefixed(auth.password) + rest
    ensures Request(reachable, rest).outcome == LogIn(auth, reachable, input).outcome
  {
    hide Request, LogInLength;
    var n, tail := input[1] as int, input[2..];
    var user, more := tail[..n], tail[n..];
    rest := PasswordOnly(auth, reachable, user, more);
  }

  /** The stage after the greeting. */
  function Rest(auth: Auth, reachable: Target -> bool, input: seq<Byte>): Reply {
    if auth.userpass then LogIn(auth, reachable, input) else Request(reachable, input)
  }

  lemma GreetingOnly(auth: Auth, reachable: Target -> bool, input: seq<Byte>)
    returns (methods: seq<Byte>, more: seq<Byte>)
    requires Negotiate(auth, reachable, input).outcome.Tunnel?
    ensures Short(methods) && input == [VERSION] + Prefixed(methods) + more
    ensures if auth.userpass then USER_PASS in methods else NO_AUTH in methods
    ensures Rest(auth, reachable, more).outcome == Negotiate(auth, reachable, input).outcome
  {
    hide Request, LogIn;
    var n, tail := input[1] as int, input[2..];
    methods, more := tail[..n], tail[n..];
  }

  /** The session behind the bytes that follow a greeting. */
  lemma RestOnly(auth: Auth, reachable: Target -> bool, methods: seq<Byte>, more: seq<Byte>) returns (s: Session)
    requires Short(methods) && Rest(auth, reachable, more).outcome.Tunnel?
    ensures WfSession(s) && s.methods == methods && reachable(s.target)
    ensures more == (if auth.userpass then LogInBytes(s) else []) + (RequestBytes(s) + s.rest)
    ensures auth.userpass ==> s.user == auth.username && s.password == auth.password
  {
    hide Request, LogIn, HostBytes, PortBytes, Prefixed;
    var request, login: Byte, user, password := more, 0, [0 as Byte], [0 as Byte];
    if auth.userpass {
      request := LogInOnly(auth, reachable, more);
      login, user, password := more[0], auth.username, auth.password;
    }
    RequestOnly(reachable, request);
    var o := Request(reachable, request).outcome;
    s := Session(methods, login, user, password, request[0], request[2], o.target, o.rest);
  }

  /** A tunnel is opened only by a session that offered the method and, where configured, gave the credentials. */
  lemma TunnelOnly(auth: Auth, reachable: Target -> bool, input: seq<Byte>) returns (s: Session)
    requires Negotiate(auth, reachable, input).outcome.Tunnel?
    ensures WfSession(s) && input == SessionBytes(auth, s) && Granted(auth, s) && reachable(s.target)
    ensures Negotiate(auth, reachable, input) == Expected(auth, reachable, s)
  {
    hide Negotiate, Rest, LogInBytes, RequestBytes, Prefixed, Expected;
    var methods, more := GreetingOnly(auth, reachable, input);
    s := RestOnly(auth, reachable, methods, more);
    SessionReplies(auth, reachable, s);
  }

  /** The tunnel condition in one line: some session of that shape is the input. */
  lemma TunnelExactly(auth: Auth, reachable: Target -> bool, input: seq<Byte>)
    ensures Negotiate(auth, reachable, input).outcome.Tunnel? <==>
            exists s :: WfSession(s) && input == SessionBytes(auth, s) && Granted(auth, s) && reachable(s.target)
  {
    hide Negotiate, SessionBytes, WfSession;
    if Negotiate(auth, reachable, input).outcome.Tunnel? {
      var s := TunnelOnly(auth, reachable, input);
    }
    if s :| WfSession(s) && input == SessionBytes(auth, s) && Granted(auth, s) && reachable(s.target) {
      SessionReplies(auth, reachable, s);
    }
  }

  // ---- What the client makes of the replies ----

  /** A client's view: still waiting, or what it has been told. */
  datatype Heard = Waiting | NoMethodAccepted | LogInRefused | Failed(code: Byte) | Connected | Nonsense

  /** The bytes of a reply's bound address, its type included, or none when the type is unknown. */
  function BoundLength(reply: seq<Byte>): nat
    requires |reply| >= 5
  {
    if reply[3] == 1 then 5 else if reply[3] == 3 then 2 + reply[4] as int else if reply[3] == 4 then 17 else 0
  }

  /** Section 6 of RFC 1928: version, code, a zero, the bound address and a port; code 0 is success. */
  function HearReply(reply: seq<Byte>): Heard {
    if |reply| < 5 then Waiting
    else if reply[0] != 5 || reply[2] != 0 || BoundLength(reply) == 0 then Nonsense
    else if |reply| < 3 + BoundLength(reply) + 2 then Waiting
    else if reply[1] == 0 then Connected else Failed(reply[1])
  }

  /** Section 2 of RFC 1929: version 1 and a status, zero for success. */
  function HearLogIn(reply: seq<Byte>): Heard {
    if |reply| < 2 then Waiting
    else if reply[0] != 1 then Nonsense
    else if reply[1] != 0 then LogInRefused
    else HearReply(reply[2..])
  }

  /** Section 3 of RFC 1928: version 5 and the chosen method, 255 for none. */
  function Hear(reply: seq<Byte>): Heard {
    if |reply| < 2 then Waiting
    else if reply[0] != 5 then Nonsense
    else if reply[1] == 255 then NoMethodAccepted
    else if reply[1] == 2 then HearLogIn(reply[2..])
    else if reply[1] == 0 then HearReply(reply[2..])
    else Nonsense
  }

  lemma RequestHeard(reachable: Target -> bool, input: seq<Byte>)
    ensures var r := Request(reachable, input);
      && (HearReply(r.sent) == Connected <==> r.outcome.Tunnel?)
      && (HearReply(r.sent) == Failed(1) <==> r.outcome.Refused?)
      && (HearReply(r.sent) == Waiting <==> r.outcome == Closed) && r.outcome != NotSocks
  {
  }

  /** Behind what has been read, the rest is heard as if it came alone. */
  lemma HearOn(sent: seq<Byte>)
    ensures Hear([5, 0] + sent) == HearReply(sent) && Hear([5, 2] + sent) == HearLogIn(sent)
    ensures HearLogIn([1, 0] + sent) == HearReply(sent)
  {
    hide HearReply;
    assert ([5, 0] + sent)[2..] == sent && ([5, 2] + sent)[2..] == sent && ([1, 0] + sent)[2..] == sent;
  }

  lemma PasswordHeard(auth: Auth, reachable: Target -> bool, user: seq<Byte>, n: int, input: seq<Byte>)
    ensures var r := LogInPassword(auth, reachable, user, n, input);
      && (HearLogIn(r.sent) == Connected <==> r.outcome.Tunnel?)
      && (HearLogIn(r.sent) == Failed(1) <==> r.outcome.Refused?)
      && (HearLogIn(r.sent) in {Waiting, LogInRefused} <==> r.outcome == Closed) && r.outcome != NotSocks
  {
    hide Request, HearReply;
    if 1 <= n <= |input| {
      RequestHeard(reachable, input[n..]);
      HearOn(Request(reachable, input[n..]).sent);
    }
  }

  lemma LogInHeard(auth: Auth, reachable: Target -> bool, input: seq<Byte>)
    ensures var r := LogIn(auth, reachable, input);
      && (HearLogIn(r.sent) == Connected <==> r.outcome.Tunnel?)
      && (HearLogIn(r.sent) == Failed(1) <==> r.outcome.Refused?)
      && (HearLogIn(r.sent) in {Waiting, LogInRefused} <==> r.outcome == Closed) && r.outcome != NotSocks
  {
    hide LogInPassword, HearReply;
    if |input| >= 2 && 1 <= input[1] as int < |input[2..]| {
      var n, more := input[1] as int, input[2..];
      PasswordHeard(auth, reachable, more[..n], more[n..][0], more[n..][1..]);
    }
  }

  lemma GreetingHeard(auth: Auth, reachable: Target -> bool, n: int, input: seq<Byte>)
    ensures var r := Greeting(auth, reachable, n, input);
      && (Hear(r.sent) == Connected <==> r.outcome.Tunnel?)
      && (Hear(r.sent) == Failed(1) <==> r.outcome.Refused?)
      && (Hear(r.sent) in {Waiting, NoMethodAccepted, LogInRefused} <==> r.outcome == Closed) && r.outcome != NotSocks
  {
    hide Request, LogIn, HearReply, HearLogIn;
    if 1 <= n <= |input| {
      var more := input[n..];
      RequestHeard(reachable, more);
      LogInHeard(auth, reachable, more);
      HearOn(Request(reachable, more).sent);
      HearOn(LogIn(auth, reachable, more).sent);
      OnlyTold(Request(reachable, more).sent);
      OnlyTold(LogIn(auth, reachable, more).sent);
    }
  }

  lemma OnlyTold(sent: seq<Byte>)
    ensures HearReply(sent) !in {NoMethodAccepted, LogInRefused} && HearLogIn(sent) != NoMethodAccepted
  {
  }

  /**
   Whatever a client sends, reading the replies by the standards tells it the truth: it hears of a connection
   exactly when the tunnel is opened, and of a general failure exactly when its target was not reached.
   */
  lemma RepliesHeard(auth: Auth, reachable: Target -> bool, input: seq<Byte>)
    ensures var r := Negotiate(auth, reachable, input);
      && (Hear(r.sent) == Connected <==> r.outcome.Tunnel?)
      && (Hear(r.sent) == Failed(1) <==> r.outcome.Refused?)
      && (Hear(r.sent) in {Waiting, NoMethodAccepted, LogInRefused} <==> r.outcome == Closed || r.outcome == NotSocks)
  {
    hide Greeting, HearReply, HearLogIn;
    if |input| >= 2 {
      GreetingHeard(auth, reachable, input[1], input[2..]);
    }
  }
}
