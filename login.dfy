/** The login server (src/login_server.rs): it checks a user's credentials
    and, once they are accepted, lists the game servers.

    The account store is an oracle: the answer of each lookup is an input,
    `Ok(Some(password))` for a known account, `Ok(None)` for an unknown one
    and `Err(())` for a failed lookup. The connection is the sequence of
    messages it delivers, one storage answer for each. */
module Login {
  import opened Wrappers
  import opened Packets

  /** The only client version the server accepts. */
  const ClientVersion: u16 := 956

  /** `authenticate_user`: the checks run in order, and the first that
      fails decides the answer. */
  function AuthenticateUser(username: string, password: string, version: u16, stored: Result<Option<string>, ()>)
    : (r: AckIDPassResult)
    ensures username == [] ==> r == IDError
    ensures username != [] && password == [] ==> r == PassError
    ensures username != [] && password != [] && version != ClientVersion ==> r == VersionError
    ensures username != [] && password != [] && version == ClientVersion ==>
      (stored.Err? || stored == Ok(None) ==> r == AccountNotError)
    ensures username != [] && password != [] && version == ClientVersion ==>
      (stored.Ok? && stored.value.Some? && stored.value.value != password ==> r == PassError)
    ensures r == IdPassOk <==> username != [] && password != [] && version == ClientVersion && stored == Ok(Some(password))
  {
    if username == [] then IDError
    else if password == [] then PassError
    else if version != ClientVersion then VersionError
    else match stored
      case Err(_) => AccountNotError
      case Ok(None) => AccountNotError
      case Ok(Some(hash)) => if password != hash then PassError else IdPassOk
  }

  /** The one game server the login server advertises: number 1 on port
      2051, room for 20, one connected. */
  const GameServerEntry: Packet := SendGmsvData(1, 2051, 20, 1)

  /** Whether the login request `p` is accepted, given its storage answer. */
  predicate Accepted(p: Packet, stored: Result<Option<string>, ()>) {
    p.SendIdPass? && AuthenticateUser(p.idPass.username, p.idPass.password, p.idPass.version, stored) == IdPassOk
  }

  /** The answer to one message and whether the connection is authenticated
      afterwards: a login request is answered only before authentication,
      the server list only after; anything else is ignored. */
  function Respond(p: Packet, authenticated: bool, stored: Result<Option<string>, ()>): (r: (seq<Packet>, bool))
    ensures r.1 <==> authenticated || Accepted(p, stored)
    ensures p.SendIdPass? && !authenticated ==>
      r.0 == [AckIdPass(AuthenticateUser(p.idPass.username, p.idPass.password, p.idPass.version, stored))]
    ensures p.ReqGmsvList? && authenticated ==> r.0 == [GameServerEntry, AckGmsvList]
    ensures !(p.SendIdPass? && !authenticated) && !(p.ReqGmsvList? && authenticated) ==> r.0 == []
  {
    match p
    case SendIdPass(idPass) =>
      if authenticated then ([], true)
      else
        var result := AuthenticateUser(idPass.username, idPass.password, idPass.version, stored);
        ([AckIdPass(result)], result == IdPassOk)
    case ReqGmsvList => if authenticated then ([GameServerEntry, AckGmsvList], true) else ([], false)
    case _ => ([], authenticated)
  }

  /** The answers to a run of messages, one list per message, and the
      final authentication state, starting unauthenticated. */
  function Session(incoming: seq<Packet>, stored: seq<Result<Option<string>, ()>>): (r: (seq<seq<Packet>>, bool))
    requires |stored| == |incoming|
    ensures |r.0| == |incoming|
  {
    if incoming == [] then ([], false)
    else
      var n := |incoming| - 1;
      var (before, auth) := Session(incoming[..n], stored[..n]);
      var (answer, auth') := Respond(incoming[n], auth, stored[n]);
      (before + [answer], auth')
  }

  /** Some login request among the first `k` messages was accepted. */
  predicate AcceptedBefore(incoming: seq<Packet>, stored: seq<Result<Option<string>, ()>>, k: nat)
    requires |stored| == |incoming| && k <= |incoming|
  {
    exists j :: 0 <= j < k && Accepted(incoming[j], stored[j])
  }

  /** `handle_connection`: the message loop with its `authenticated` flag. */
  method HandleConnection(incoming: seq<Packet>, stored: seq<Result<Option<string>, ()>>)
    returns (answers: seq<seq<Packet>>, authenticated: bool)
    requires |stored| == |incoming|
    ensures (answers, authenticated) == Session(incoming, stored)
  {
    answers, authenticated := [], false;
    var i := 0;
    while i < |incoming|
      invariant 0 <= i <= |incoming|
      invariant (answers, authenticated) == Session(incoming[..i], stored[..i])
    {
      assert incoming[..i + 1][..i] == incoming[..i] && stored[..i + 1][..i] == stored[..i];
      var p, answer: seq<Packet> := incoming[i], [];
      if p.SendIdPass? {
        if !authenticated {
          var result := AuthenticateUser(p.idPass.username, p.idPass.password, p.idPass.version, stored[i]);
          if result == IdPassOk {
            authenticated := true;
          }
          answer := [AckIdPass(result)];
        }
      } else if p.ReqGmsvList? {
        if authenticated {
          answer := [GameServerEntry, AckGmsvList];
        }
      }
      answers := answers + [answer];
      i := i + 1;
    }
    assert incoming[..i] == incoming && stored[..i] == stored;
  }

  /** A connection is authenticated exactly when one of its login requests
      was accepted. */
  lemma {:induction false} AuthenticatedIffAccepted(incoming: seq<Packet>, stored: seq<Result<Option<string>, ()>>)
    requires |stored| == |incoming|
    ensures Session(incoming, stored).1 <==> AcceptedBefore(incoming, stored, |incoming|)
  {
    if incoming != [] {
      var n := |incoming| - 1;
      AuthenticatedIffAccepted(incoming[..n], stored[..n]);
      if AcceptedBefore(incoming[..n], stored[..n], n) {
        var j :| 0 <= j < n && Accepted(incoming[..n][j], stored[..n][j]);
        assert Accepted(incoming[j], stored[j]);
      }
      if AcceptedBefore(incoming, stored, |incoming|) {
        var j :| 0 <= j < |incoming| && Accepted(incoming[j], stored[j]);
        if j < n {
          assert Accepted(incoming[..n][j], stored[..n][j]);
        }
      }
    }
  }

  /** The answers to the first messages do not depend on later ones. */
  lemma {:induction false} SessionPrefix(incoming: seq<Packet>, stored: seq<Result<Option<string>, ()>>, k: nat)
    requires |stored| == |incoming| && k <= |incoming|
    ensures Session(incoming, stored).0[..k] == Session(incoming[..k], stored[..k]).0
  {
    if k < |incoming| {
      var n := |incoming| - 1;
      assert incoming[..n][..k] == incoming[..k] && stored[..n][..k] == stored[..k];
      SessionPrefix(incoming[..n], stored[..n], k);
    } else {
      assert incoming[..k] == incoming && stored[..k] == stored;
    }
  }

  /** The server list request at position `i` is answered, with the server
      entry and the end marker, exactly when an earlier login was accepted;
      a login request is answered exactly when none was. */
  lemma GateAt(incoming: seq<Packet>, stored: seq<Result<Option<string>, ()>>, i: nat)
    requires |stored| == |incoming| && i < |incoming|
    ensures incoming[i].ReqGmsvList? ==>
      (Session(incoming, stored).0[i] == [GameServerEntry, AckGmsvList] <==> AcceptedBefore(incoming, stored, i))
    ensures incoming[i].ReqGmsvList? ==>
      (Session(incoming, stored).0[i] == [] <==> !AcceptedBefore(incoming, stored, i))
    ensures incoming[i].SendIdPass? ==> (Session(incoming, stored).0[i] != [] <==> !AcceptedBefore(incoming, stored, i))
  {
    SessionPrefix(incoming, stored, i + 1);
    var pre, st := incoming[..i + 1], stored[..i + 1];
    assert pre[..i] == incoming[..i] && st[..i] == stored[..i];
    AuthenticatedIffAccepted(incoming[..i], stored[..i]);
    assert AcceptedBefore(incoming[..i], stored[..i], i) <==> AcceptedBefore(incoming, stored, i) by {
      if AcceptedBefore(incoming, stored, i) {
        var j :| 0 <= j < i && Accepted(incoming[j], stored[j]);
        assert Accepted(incoming[..i][j], stored[..i][j]);
      }
      if AcceptedBefore(incoming[..i], stored[..i], i) {
        var j :| 0 <= j < i && Accepted(incoming[..i][j], stored[..i][j]);
        assert Accepted(incoming[j], stored[j]);
      }
    }
    assert Session(incoming, stored).0[i] == Session(incoming, stored).0[..i + 1][i];
  }
}
