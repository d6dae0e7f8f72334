/** Method negotiation and username/password authentication between the two ends of this
    repository: `negotiate` of src/server.rs:311-364 and `Client::negotiate` of
    src/client.rs:110-142 (section 3 of RFC 1928, section 2 of RFC 1929). */
module Handshake {
  import opened Wrappers
  import opened Bytes
  import opened Codec
  import opened CodecIo

  // ---- Comparison without early exit ----

  /** Exclusive or, bit by bit. */
  function Xor(x: nat, y: nat): nat
    decreases x + y
  {
    if x == 0 && y == 0 then 0 else (x % 2 + y % 2) % 2 + 2 * Xor(x / 2, y / 2)
  }

  /** Inclusive or, bit by bit. */
  function Or(x: nat, y: nat): nat
    decreases x + y
  {
    if x == 0 && y == 0 then 0 else (if x % 2 == 1 || y % 2 == 1 then 1 else 0) + 2 * Or(x / 2, y / 2)
  }

  lemma {:induction false} XorZero(x: nat, y: nat)
    ensures Xor(x, y) == 0 <==> x == y
    decreases x + y
  {
    if x == 0 && y == 0 {
    } else {
      XorZero(x / 2, y / 2);
    }
  }

  lemma {:induction false} OrZero(x: nat, y: nat)
    ensures Or(x, y) == 0 <==> x == 0 && y == 0
    decreases x + y
  {
    if x == 0 && y == 0 {
    } else {
      OrZero(x / 2, y / 2);
    }
  }

  /** `constant_time_eq`: the accumulated difference is zero exactly for equal inputs, also
      when one is longer and goes on with zero bytes. */
  method ConstantTimeEq(a: seq<byte>, b: seq<byte>) returns (equal: bool)
    ensures equal <==> a == b
  {
    var difference := Xor(|a|, |b|);
    XorZero(|a|, |b|);
    for index := 0 to |a|
      invariant difference == 0 <==>
        |a| == |b| && forall k :: 0 <= k < index ==> a[k] == if k < |b| then b[k] else 0
    {
      var other := if index < |b| then b[index] else 0;
      XorZero(a[index], other);
      OrZero(difference, Xor(a[index], other));
      difference := Or(difference, Xor(a[index], other));
    }
    equal := difference == 0;
  }

  // ---- The two ends as functions of what they read ----

  /** `Config::validate` and the check in `Client::new`. */
  predicate ValidCredentials(username: seq<byte>, password: seq<byte>) {
    (username == [] <==> password == []) && |username| <= 255 && |password| <= 255
  }

  /** What an end has returned, what it has written, and what it has left unread. */
  datatype Talk = Talk(result: Result<(), ErrorKind>, written: seq<byte>, unread: seq<byte>)

  function Method(username: seq<byte>): byte {
    if username == [] then 0 else 2
  }

  function AuthBytes(username: seq<byte>, password: seq<byte>): seq<byte>
    requires |username| <= 255 && |password| <= 255
  {
    [1, |username|] + username + [|password|] + password
  }

  /** The server's part from the method choice on. */
  function ServerAuth(username: seq<byte>, password: seq<byte>, input: seq<byte>): Talk {
    match Take(input, 2)
    case Err(e) => Talk(Err(e), [], [])
    case Ok(header) =>
      if header.value[0] != 1 || header.value[1] == 0 then Talk(Err(InvalidData), [], header.rest)
      else match Take(header.rest, header.value[1])
        case Err(e) => Talk(Err(e), [], [])
        case Ok(name) =>
          match Take(name.rest, 1)
          case Err(e) => Talk(Err(e), [], [])
          case Ok(length) =>
            if length.value[0] == 0 then Talk(Err(PermissionDenied), [1, 1], length.rest)
            else match Take(length.rest, length.value[0])
              case Err(e) => Talk(Err(e), [], [])
              case Ok(word) =>
                if name.value == username && word.value == password
                then Talk(Ok(()), [1, 0], word.rest)
                else Talk(Err(PermissionDenied), [1, 1], word.rest)
  }

  function ServerTalk(username: seq<byte>, password: seq<byte>, input: seq<byte>): Talk {
    match Take(input, 2)
    case Err(e) => Talk(Err(e), [], [])
    case Ok(header) =>
      if header.value[0] != 5 || header.value[1] == 0 then Talk(Err(InvalidData), [], header.rest)
      else match Take(header.rest, header.value[1])
        case Err(e) => Talk(Err(e), [], [])
        case Ok(methods) =>
          if Method(username) !in methods.value then Talk(Err(PermissionDenied), [5, 255], methods.rest)
          else if username == [] then Talk(Ok(()), [5, 0], methods.rest)
          else
            var auth := ServerAuth(username, password, methods.rest);
            auth.(written := [5, 2] + auth.written)
  }

  function ClientTalk(username: seq<byte>, password: seq<byte>, input: seq<byte>): Talk
    requires |username| <= 255 && |password| <= 255
  {
    var greeting: seq<byte> := [5, 1, Method(username)];
    match Take(input, 2)
    case Err(e) => Talk(Err(e), greeting, [])
    case Ok(reply) =>
      if reply.value != [5, Method(username)] then Talk(Err(PermissionDenied), greeting, reply.rest)
      else if username == [] then Talk(Ok(()), greeting, reply.rest)
      else
        var written := greeting + AuthBytes(username, password);
        match Take(reply.rest, 2)
        case Err(e) => Talk(Err(e), written, [])
        case Ok(verdict) =>
          if verdict.value != [1, 0] then Talk(Err(PermissionDenied), written, verdict.rest)
          else Talk(Ok(()), written, verdict.rest)
  }

  // ---- The two ends in their own form ----

  method ServerNegotiate(input: Stream, output: Buffer, username: seq<byte>, password: seq<byte>)
    returns (r: Result<(), ErrorKind>)
    modifies input, output
    ensures var talk := ServerTalk(username, password, old(input.rest));
            && r == talk.result && output.bytes == old(output.bytes) + talk.written
            && (r.Ok? ==> input.rest == talk.unread)
  {
    var header := input.ReadExact(2);
    if header.Err? { return Err(header.error); }
    if header.value[0] != 5 || header.value[1] == 0 { return Err(InvalidData); }
    var methods := input.ReadExact(header.value[1]);
    if methods.Err? { return Err(methods.error); }
    var selected: byte := if username == [] then 0 else 2;
    if selected !in methods.value {
      output.Extend([5, 255]);
      return Err(PermissionDenied);
    }
    output.Extend([5, selected]);
    if selected == 2 {
      ghost var auth := ServerAuth(username, password, input.rest);
      assert ServerTalk(username, password, old(input.rest)) == auth.(written := [5, 2] + auth.written);
      var authHeader := input.ReadExact(2);
      if authHeader.Err? { return Err(authHeader.error); }
      if authHeader.value[0] != 1 || authHeader.value[1] == 0 { return Err(InvalidData); }
      var name := input.ReadExact(authHeader.value[1]);
      if name.Err? { return Err(name.error); }
      var passwordLength := input.ReadExact(1);
      if passwordLength.Err? { return Err(passwordLength.error); }
      if passwordLength.value[0] == 0 {
        output.Extend([1, 1]);
        return Err(PermissionDenied);
      }
      var word := input.ReadExact(passwordLength.value[0]);
      if word.Err? { return Err(word.error); }
      var nameEqual := ConstantTimeEq(name.value, username);
      var wordEqual := ConstantTimeEq(word.value, password);
      var allowed := nameEqual && wordEqual;
      output.Extend([1, if allowed then 0 else 1]);
      if !allowed { return Err(PermissionDenied); }
    }
    r := Ok(());
  }

  method ClientNegotiate(input: Stream, output: Buffer, username: seq<byte>, password: seq<byte>)
    returns (r: Result<(), ErrorKind>)
    requires |username| <= 255 && |password| <= 255
    modifies input, output
    ensures var talk := ClientTalk(username, password, old(input.rest));
            && r == talk.result && output.bytes == old(output.bytes) + talk.written
            && (r.Ok? ==> input.rest == talk.unread)
  {
    var chosen: byte := if username == [] then 0 else 2;
    output.Extend([5, 1, chosen]);
    var reply := input.ReadExact(2);
    if reply.Err? { return Err(reply.error); }
    if reply.value != [5, chosen] { return Err(PermissionDenied); }
    if chosen == 2 {
      var request: seq<byte> := [1, |username|];
      request := request + username;
      request := request + [|password|];
      request := request + password;
      output.Extend(request);
      var verdict := input.ReadExact(2);
      if verdict.Err? { return Err(verdict.error); }
      if verdict.value != [1, 0] { return Err(PermissionDenied); }
    }
    r := Ok(());
  }

  // ---- What the server accepts ----

  /** Where the offered methods end in the input of the server. */
  function MethodsEnd(input: seq<byte>): nat
    requires |input| >= 2
  {
    var count: nat := input[1];
    2 + count
  }

  /** What the server has left to read after the user name. */
  function AfterName(input: seq<byte>): seq<byte>
    requires |input| >= 2 && |input[2..]| >= input[1]
  {
    input[2..][input[1]..]
  }

  /** A server that lets someone in has read the parts one after the other. */
  lemma AuthParts(username: seq<byte>, password: seq<byte>, input: seq<byte>)
    requires ServerAuth(username, password, input).result.Ok?
    ensures |username| <= 255 && |input| >= 2 && input[..2] == [1, |username|]
    ensures |input[2..]| >= |username| && input[2..][..|username|] == username
    ensures |password| <= 255 && |AfterName(input)| > |password| && AfterName(input)[0] == |password|
    ensures AfterName(input)[1..][..|password|] == password
    ensures ServerAuth(username, password, input).unread == AfterName(input)[1..][|password|..]
  {
    assert input[..2] == [input[0], input[1]];
  }

  lemma Glue(a: seq<byte>, b: seq<byte>, c: seq<byte>, d: seq<byte>, e: seq<byte>)
    ensures a + b + c + d + e == a + (b + (c + (d + e)))
  {}

  lemma AuthCanonical(username: seq<byte>, password: seq<byte>, input: seq<byte>)
    requires ServerAuth(username, password, input).result.Ok? && |username| <= 255 && |password| <= 255
    ensures input == AuthBytes(username, password) + ServerAuth(username, password, input).unread
  {
    AuthParts(username, password, input);
    var rest := AfterName(input);
    assert input == input[..2] + input[2..];
    assert input[2..] == input[2..][..|username|] + rest;
    assert rest == [rest[0]] + rest[1..];
    assert rest[1..] == rest[1..][..|password|] + rest[1..][|password|..];
    Glue([1, |username|], username, [|password|], password, ServerAuth(username, password, input).unread);
  }

  /** What the client sends is read as what it meant, whatever the server expects. */
  lemma AuthReads(username: seq<byte>, password: seq<byte>, u: seq<byte>, p: seq<byte>, rest: seq<byte>)
    requires ValidCredentials(u, p) && u != []
    ensures ServerAuth(username, password, AuthBytes(u, p) + rest) ==
      if u == username && p == password then Talk(Ok(()), [1, 0], rest) else Talk(Err(PermissionDenied), [1, 1], rest)
  {
    var input := AuthBytes(u, p) + rest;
    assert input[..2] == [1, |u|];
    assert input[2..] == u + ([|p|] + p + rest);
    assert input[2..][..|u|] == u && input[2..][|u|..] == [|p|] + p + rest;
    assert ([|p|] + p + rest)[..1] == [|p|] && ([|p|] + p + rest)[1..] == p + rest;
    assert (p + rest)[..|p|] == p && (p + rest)[|p|..] == rest;
  }

  lemma AuthAccepted(username: seq<byte>, password: seq<byte>, rest: seq<byte>)
    requires ValidCredentials(username, password) && username != []
    ensures ServerAuth(username, password, AuthBytes(username, password) + rest) == Talk(Ok(()), [1, 0], rest)
  {
    AuthReads(username, password, username, password, rest);
  }

  lemma AuthAcceptsExactly(username: seq<byte>, password: seq<byte>, input: seq<byte>)
    requires ValidCredentials(username, password) && username != []
    ensures ServerAuth(username, password, input).result.Ok? <==> AuthBytes(username, password) <= input
    ensures ServerAuth(username, password, input).result.Ok? ==>
      ServerAuth(username, password, input).unread == input[|AuthBytes(username, password)|..]
  {
    var auth := AuthBytes(username, password);
    if auth <= input {
      AuthAccepted(username, password, input[|auth|..]);
      assert input == auth + input[|auth|..];
    }
    if ServerAuth(username, password, input).result.Ok? { AuthCanonical(username, password, input); }
  }

  // ---- What the ends write and how they fail, byte by byte ----

  /** A greeting that is there in full: version 5, the number of methods, the methods. */
  predicate Greeting(input: seq<byte>) {
    |input| >= 2 && input[0] == 5 && 2 < MethodsEnd(input) <= |input|
  }

  /** Every input: without a full greeting nothing is written; the method 2 is named if there are
      credentials and 0 if there are none, provided it is among those offered, whatever else is
      offered and in whatever order; otherwise 255 is, and that is all. */
  lemma ServerAnswersGreeting(username: seq<byte>, password: seq<byte>, input: seq<byte>)
    ensures var talk := ServerTalk(username, password, input);
            if !Greeting(input) then
              && talk.written == []
              && talk.result == Err(if |input| >= 2 && (input[0] != 5 || input[1] == 0) then InvalidData else UnexpectedEof)
            else
              var methods, rest := input[2..MethodsEnd(input)], input[MethodsEnd(input)..];
              if (if username == [] then 0 else 2) !in methods then
                talk.written == [5, 255] && talk.result == Err(PermissionDenied) && talk.unread == rest
              else if username == [] then
                talk == Talk(Ok(()), [5, 0], rest)
              else
                var auth := ServerAuth(username, password, rest);
                talk == Talk(auth.result, [5, 2] + auth.written, auth.unread)
  {
    if Greeting(input) {
      assert input[2..][..MethodsEnd(input) - 2] == input[2..MethodsEnd(input)];
      assert input[2..][MethodsEnd(input) - 2..] == input[MethodsEnd(input)..];
    }
  }

  /** The server lets in exactly those who offer its method and, if it has credentials, then
      present exactly these; it leaves what follows unread. */
  lemma ServerAcceptsExactly(username: seq<byte>, password: seq<byte>, input: seq<byte>)
    requires ValidCredentials(username, password)
    ensures ServerTalk(username, password, input).result.Ok? <==>
      && |input| >= 2 && input[0] == 5 && 2 < MethodsEnd(input) <= |input|
      && Method(username) in input[2..MethodsEnd(input)]
      && (username != [] ==> AuthBytes(username, password) <= input[MethodsEnd(input)..])
    ensures ServerTalk(username, password, input).result.Ok? ==>
      ServerTalk(username, password, input).unread ==
        input[MethodsEnd(input)..][if username == [] then 0 else |AuthBytes(username, password)|..]
  {
    ServerAnswersGreeting(username, password, input);
    if Greeting(input) && username != [] {
      AuthAcceptsExactly(username, password, input[MethodsEnd(input)..]);
    }
  }

  /** Where the name ends in a username/password request. */
  function NameEnd(input: seq<byte>): nat
    requires |input| >= 2
  {
    var length: nat := input[1];
    2 + length
  }

  /** Version 1, the length of the name, the name, the length of the password. */
  predicate NameGiven(input: seq<byte>) {
    |input| >= 2 && input[0] == 1 && 2 < NameEnd(input) < |input|
  }

  function PasswordEnd(input: seq<byte>): nat
    requires NameGiven(input)
  {
    var length: nat := input[NameEnd(input)];
    NameEnd(input) + 1 + length
  }

  /** Every input: `[1, 0]` is answered to the server's own credentials, `[1, 1]` to any others
      and to an empty password, and nothing to a request that is malformed or incomplete. */
  lemma ServerAnswersAuth(username: seq<byte>, password: seq<byte>, input: seq<byte>)
    ensures var talk := ServerAuth(username, password, input);
            if !NameGiven(input) then
              && talk.written == []
              && talk.result == Err(if |input| >= 2 && (input[0] != 1 || input[1] == 0) then InvalidData else UnexpectedEof)
            else if input[NameEnd(input)] == 0 then
              talk.written == [1, 1] && talk.result == Err(PermissionDenied)
            else if PasswordEnd(input) > |input| then
              talk.written == [] && talk.result == Err(UnexpectedEof)
            else if input[2..NameEnd(input)] == username && input[NameEnd(input) + 1..PasswordEnd(input)] == password then
              talk == Talk(Ok(()), [1, 0], input[PasswordEnd(input)..])
            else
              talk.written == [1, 1] && talk.result == Err(PermissionDenied)
  {
    if |input| >= 2 && NameEnd(input) <= |input| {
      var n := NameEnd(input);
      assert input[2..][..n - 2] == input[2..n];
      assert input[2..][n - 2..] == input[n..];
      if NameGiven(input) {
        assert input[n..][0] == input[n];
        assert input[n..][1..] == input[n + 1..];
        if PasswordEnd(input) <= |input| {
          assert input[n + 1..][..PasswordEnd(input) - n - 1] == input[n + 1..PasswordEnd(input)];
          assert input[n + 1..][PasswordEnd(input) - n - 1..] == input[PasswordEnd(input)..];
        }
      }
    }
  }

  /** What the client waits for. */
  function Welcome(username: seq<byte>): seq<byte> {
    if username == [] then [5, 0] else [5, 2, 1, 0]
  }

  /** Every input: the client offers one method, sends its credentials exactly if the server names
      that method and there are any, and succeeds exactly on the welcome, leaving the rest. */
  lemma ClientAnswers(username: seq<byte>, password: seq<byte>, input: seq<byte>)
    requires |username| <= 255 && |password| <= 255
    ensures var talk := ClientTalk(username, password, input);
            && talk.written == (if username == [] then [5, 1, 0]
                                else if [5, 2] <= input then [5, 1, 2, 1, |username|] + username + [|password|] + password
                                else [5, 1, 2])
            && (talk.result == Ok(()) <==> Welcome(username) <= input)
            && (talk.result == Ok(()) ==> talk.unread == input[|Welcome(username)|..])
            && (talk.result == Err(PermissionDenied) <==>
                  || (|input| >= 2 && input[..2] != Welcome(username)[..2])
                  || (username != [] && |input| >= 4 && input[..2] == [5, 2] && input[2..4] != [1, 0]))
            && talk.result in {Ok(()), Err(PermissionDenied), Err(UnexpectedEof)}
  {
    assert Welcome(username)[..2] == [5, Method(username)];
    if [5, 2] <= input && username != [] {
      assert [5, 1, 2] + AuthBytes(username, password) == [5, 1, 2, 1, |username|] + username + [|password|] + password;
    }
    if |input| >= 4 { assert input[2..][..2] == input[2..4] && input[2..][2..] == input[4..]; }
    if |input| >= 2 { assert [5, 2] <= input <==> input[..2] == [5, 2]; }
    if |input| >= 4 { assert input[..4] == input[..2] + input[2..4]; assert [5, 2, 1, 0] <= input <==> input[..2] == [5, 2] && input[2..4] == [1, 0]; }
  }

  // ---- The two ends against each other ----

  /** Each end has read what the other has written, and written what it does on reading
      that: the conversation has come to rest. */
  predicate Conversation(cu: seq<byte>, cp: seq<byte>, su: seq<byte>, sp: seq<byte>, toServer: seq<byte>, toClient: seq<byte>)
    requires |cu| <= 255 && |cp| <= 255
  {
    toServer == ClientTalk(cu, cp, toClient).written && toClient == ServerTalk(su, sp, toServer).written
  }

  /** What the client has written when the server has answered `k` times. */
  function ToServer(cu: seq<byte>, cp: seq<byte>, su: seq<byte>, sp: seq<byte>, k: nat): seq<byte>
    requires |cu| <= 255 && |cp| <= 255
    decreases k
  {
    ClientTalk(cu, cp, if k == 0 then [] else ServerTalk(su, sp, ToServer(cu, cp, su, sp, k - 1)).written).written
  }

  lemma GreetingRead(su: seq<byte>, sp: seq<byte>, m: byte, rest: seq<byte>)
    ensures ServerTalk(su, sp, [5, 1, m] + rest) ==
      if m != Method(su) then Talk(Err(PermissionDenied), [5, 255], rest)
      else if su == [] then Talk(Ok(()), [5, 0], rest)
      else var auth := ServerAuth(su, sp, rest); auth.(written := [5, 2] + auth.written)
  {
    var input := [5, 1, m] + rest;
    assert input[..2] == [5, 1] && input[2..] == [m] + rest;
    assert input[2..][..1] == [m] && input[2..][1..] == rest;
  }

  lemma VerdictRead(cu: seq<byte>, cp: seq<byte>, verdict: byte)
    requires |cu| <= 255 && |cp| <= 255 && cu != []
    ensures ClientTalk(cu, cp, [5, 2] + [1, verdict]) ==
      Talk(if verdict == 0 then Ok(()) else Err(PermissionDenied), [5, 1, 2] + AuthBytes(cu, cp), [])
  {
    var input: seq<byte> := [5, 2] + [1, verdict];
    assert input[..2] == [5, 2] && input[2..] == [1, verdict];
    assert input[2..][..2] == [1, verdict] && input[2..][2..] == [];
  }

  /** The client offers a method the server does not want. */
  lemma MismatchAgreement(cu: seq<byte>, cp: seq<byte>, su: seq<byte>, sp: seq<byte>, toServer: seq<byte>, toClient: seq<byte>)
    requires ValidCredentials(cu, cp) && ValidCredentials(su, sp) && Method(cu) != Method(su)
    requires Conversation(cu, cp, su, sp, toServer, toClient)
    ensures ClientTalk(cu, cp, toClient).result == Err(PermissionDenied)
    ensures ServerTalk(su, sp, toServer).result == Err(PermissionDenied)
  {
    assert toServer == [5, 1, Method(cu)] + toServer[3..];
    GreetingRead(su, sp, Method(cu), toServer[3..]);
    assert toClient == [5, 255];
    assert toClient[..2][1] == 255;
  }

  lemma OpenAgreement(toServer: seq<byte>, toClient: seq<byte>)
    requires Conversation([], [], [], [], toServer, toClient)
    ensures ClientTalk([], [], toClient) == Talk(Ok(()), toServer, [])
    ensures ServerTalk([], [], toServer) == Talk(Ok(()), toClient, [])
  {
    assert toServer == [5, 1, 0] + [];
    GreetingRead([], [], 0, []);
    assert toClient == [5, 0];
  }

  lemma AuthAgreement(cu: seq<byte>, cp: seq<byte>, su: seq<byte>, sp: seq<byte>, toServer: seq<byte>, toClient: seq<byte>)
    requires ValidCredentials(cu, cp) && ValidCredentials(su, sp) && cu != [] && su != []
    requires Conversation(cu, cp, su, sp, toServer, toClient)
    ensures var result := if cu == su && cp == sp then Ok(()) else Err(PermissionDenied);
            && ClientTalk(cu, cp, toClient) == Talk(result, toServer, [])
            && ServerTalk(su, sp, toServer) == Talk(result, toClient, [])
  {
    var greeting: seq<byte> := [5, 1, 2];
    assert toServer == greeting + toServer[3..];
    GreetingRead(su, sp, 2, toServer[3..]);
    assert toClient == [5, 2] + ServerAuth(su, sp, toServer[3..]).written;
    assert toClient[..2] == [5, 2];
    assert toServer == greeting + AuthBytes(cu, cp);
    assert toServer[3..] == AuthBytes(cu, cp) + [];
    AuthReads(su, sp, cu, cp, []);
    VerdictRead(cu, cp, if cu == su && cp == sp then 0 else 1);
  }

  /** However the conversation comes to rest: if the credentials are equal both ends succeed
      and have read everything, otherwise both refuse. Neither ends waiting for input. */
  lemma HandshakeAgreement(cu: seq<byte>, cp: seq<byte>, su: seq<byte>, sp: seq<byte>, toServer: seq<byte>, toClient: seq<byte>)
    requires ValidCredentials(cu, cp) && ValidCredentials(su, sp)
    requires Conversation(cu, cp, su, sp, toServer, toClient)
    ensures var client, server := ClientTalk(cu, cp, toClient), ServerTalk(su, sp, toServer);
            if cu == su && cp == sp
            then client.result == Ok(()) && server.result == Ok(()) && client.unread == [] && server.unread == []
            else client.result == Err(PermissionDenied) && server.result == Err(PermissionDenied)
  {
    if Method(cu) != Method(su) {
      MismatchAgreement(cu, cp, su, sp, toServer, toClient);
    } else if cu == [] {
      OpenAgreement(toServer, toClient);
    } else {
      AuthAgreement(cu, cp, su, sp, toServer, toClient);
    }
  }

  /** After the greeting a server that wants the client's credentials waits for them, and any
      other has said all it will say. */
  lemma FirstAnswer(cu: seq<byte>, su: seq<byte>, sp: seq<byte>)
    ensures ServerTalk(su, sp, [5, 1, Method(cu)]).written ==
      if Method(cu) != Method(su) then [5, 255] else [5, Method(su)]
  {
    assert [5, 1, Method(cu)] == [5, 1, Method(cu)] + [];
    GreetingRead(su, sp, Method(cu), []);
  }

  /** The server's answer to greeting and credentials. */
  lemma SecondAnswer(cu: seq<byte>, cp: seq<byte>, su: seq<byte>, sp: seq<byte>)
    requires ValidCredentials(cu, cp) && cu != [] && su != []
    ensures ServerTalk(su, sp, [5, 1, 2] + AuthBytes(cu, cp)).written ==
      [5, 2] + [1, if cu == su && cp == sp then 0 else 1]
  {
    GreetingRead(su, sp, 2, AuthBytes(cu, cp));
    assert AuthBytes(cu, cp) == AuthBytes(cu, cp) + [];
    AuthReads(su, sp, cu, cp, []);
  }

  /** The client's part up to the choice of a method. */
  lemma ChoiceRead(cu: seq<byte>, cp: seq<byte>, m: byte)
    requires |cu| <= 255 && |cp| <= 255
    ensures ClientTalk(cu, cp, [5, m]).written ==
      [5, 1, Method(cu)] + (if m == Method(cu) && cu != [] then AuthBytes(cu, cp) else [])
  {
    var input: seq<byte> := [5, m];
    assert input[..2] == input && input[2..] == [];
  }

  lemma Onward(cu: seq<byte>, cp: seq<byte>, su: seq<byte>, sp: seq<byte>, k: nat, toServer: seq<byte>, toClient: seq<byte>)
    requires |cu| <= 255 && |cp| <= 255 && k > 0
    requires ToServer(cu, cp, su, sp, k - 1) == toServer && ServerTalk(su, sp, toServer).written == toClient
    ensures ToServer(cu, cp, su, sp, k) == ClientTalk(cu, cp, toClient).written
  {}

  /** All that the client will ever write. */
  function Full(cu: seq<byte>, cp: seq<byte>, su: seq<byte>): seq<byte>
    requires |cu| <= 255 && |cp| <= 255
  {
    [5, 1, Method(cu)] + (if Method(cu) == Method(su) && cu != [] then AuthBytes(cu, cp) else [])
  }

  lemma FirstRound(cu: seq<byte>, cp: seq<byte>, su: seq<byte>, sp: seq<byte>)
    requires ValidCredentials(cu, cp)
    ensures ToServer(cu, cp, su, sp, 1) == Full(cu, cp, su)
  {
    var answer: byte := if Method(cu) != Method(su) then 255 else Method(su);
    var first := ToServer(cu, cp, su, sp, 0);
    assert first == [5, 1, Method(cu)];
    FirstAnswer(cu, su, sp);
    Onward(cu, cp, su, sp, 1, first, [5, answer]);
    ChoiceRead(cu, cp, answer);
  }

  /** On the answer to all of it the client has nothing to add. */
  lemma NothingToAdd(cu: seq<byte>, cp: seq<byte>, su: seq<byte>, sp: seq<byte>)
    requires ValidCredentials(cu, cp) && ValidCredentials(su, sp)
    ensures ClientTalk(cu, cp, ServerTalk(su, sp, Full(cu, cp, su)).written).written == Full(cu, cp, su)
  {
    if Method(cu) == Method(su) && cu != [] {
      SecondAnswer(cu, cp, su, sp);
      VerdictRead(cu, cp, if cu == su && cp == sp then 0 else 1);
    } else {
      assert Full(cu, cp, su) == [5, 1, Method(cu)];
      FirstAnswer(cu, su, sp);
      ChoiceRead(cu, cp, if Method(cu) != Method(su) then 255 else Method(su));
    }
  }

  /** It does come to rest, after two answers at the latest. */
  lemma HandshakeComesToRest(cu: seq<byte>, cp: seq<byte>, su: seq<byte>, sp: seq<byte>)
    requires ValidCredentials(cu, cp) && ValidCredentials(su, sp)
    ensures Conversation(cu, cp, su, sp, ToServer(cu, cp, su, sp, 2), ServerTalk(su, sp, ToServer(cu, cp, su, sp, 2)).written)
  {
    var full := Full(cu, cp, su);
    FirstRound(cu, cp, su, sp);
    NothingToAdd(cu, cp, su, sp);
    Onward(cu, cp, su, sp, 2, full, ServerTalk(su, sp, full).written);
  }
}
