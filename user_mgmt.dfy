/** The handlers of src/gs2/user_mgmt.rs: status changes and their
    broadcast, the player's display name, user data, money, inventory, golf
    bag and hold box. */
module UserMgmt {
  import opened Wrappers
  import opened Packets
  import opened Items
  import opened Rooms
  import opened Users
  import opened GameServers

  /** Whether a player hears a status change of `cid`, made by a player in
      `mode` and lobby `lobby`: anyone else in that very mode and lobby,
      and nobody when the sender is in no lobby. */
  predicate HearsUStat(p: Player, cid: i32, mode: Mode, lobby: i8) {
    p.cid != cid && mode == p.mode && lobby >= 0 && lobby == p.curLobby
  }

  /** The players after `q` went to every one of them that hears the
      change. */
  function UStatSent(conns: seq<Player>, cid: i32, mode: Mode, lobby: i8, q: Queued): (r: seq<Player>)
    ensures |r| == |conns| && Roster(r) == Roster(conns)
  {
    UStatSentUpTo(conns, |conns|, cid, mode, lobby, q)
  }

  /** The same for the first `n` players only. */
  function UStatSentUpTo(conns: seq<Player>, n: nat, cid: i32, mode: Mode, lobby: i8, q: Queued): (r: seq<Player>)
    ensures |r| == |conns| && Roster(r) == Roster(conns)
  {
    seq(|conns|, i requires 0 <= i < |conns| =>
      if i < n && HearsUStat(conns[i], cid, mode, lobby) then Sent(conns[i], q) else conns[i])
  }

  lemma UStatStep(conns: seq<Player>, n: nat, cid: i32, mode: Mode, lobby: i8, q: Queued)
    requires n < |conns|
    ensures var r := UStatSentUpTo(conns, n, cid, mode, lobby, q);
      r[n] == conns[n]
      && UStatSentUpTo(conns, n + 1, cid, mode, lobby, q)
         == if HearsUStat(conns[n], cid, mode, lobby) then Deliver(r, n, q) else r
  {
  }

  /** From a player in no lobby, a status change reaches nobody. */
  lemma UStatSilentOutsideLobby(conns: seq<Player>, cid: i32, mode: Mode, lobby: i8, q: Queued)
    requires lobby < 0
    ensures UStatSent(conns, cid, mode, lobby, q) == conns
  {
    var r := UStatSent(conns, cid, mode, lobby, q);
    assert forall i :: 0 <= i < |conns| ==> r[i] == conns[i];
  }

  /** On a valid server, the players who hear a status change from a
      player in a lobby are exactly the other members of that lobby. */
  lemma UStatAudience(conns: seq<Player>, lookup: map<i32, int>, ls: Lobbies, who: nat, j: nat)
    requires LookupValid(Roster(conns), lookup) && MembershipValid(Roster(conns), lookup, ls)
    requires who < |conns| && j < |conns| && conns[who].curLobby >= 0
    ensures var p := conns[who];
      HearsUStat(conns[j], p.cid, p.mode, p.curLobby) <==>
        j != who && conns[j].cid in LobbyAt(ls, p.mode, p.curLobby).value.members
  {
    var p, roster := conns[who], Roster(conns);
    assert roster[who] == Seat(p.cid, p.mode, p.curLobby);
    assert roster[j] == Seat(conns[j].cid, conns[j].mode, conns[j].curLobby);
    var c := conns[j].cid;
    if c in LobbyAt(ls, p.mode, p.curLobby).value.members {
      assert lookup[c] == j;
    }
  }

  /** `handle_send_ustat`: only for the sender's own cid and uid, the
      sender's status is replaced and `SEND_USTAT` goes to every other
      player in the same mode and lobby; otherwise nothing changes. */
  method HandleSendUStat(gs: GameServer, who: nat, cid: i32, uid: i32, stat: Stat)
    requires gs.Valid() && who < |gs.conns|
    modifies gs`conns
    ensures gs.Valid()
    ensures var p := old(gs.conns[who]);
      if p.cid == cid && p.uid == uid then
        gs.conns == UStatSent(old(gs.conns)[who := p.(stat := stat)], cid, p.mode, p.curLobby,
                              Queued(None, SendUStat(cid, uid, stat)))
      else gs.conns == old(gs.conns)
  {
    var p := gs.conns[who];
    if p.cid == cid && p.uid == uid {
      SameSeat(gs.conns, who, p.(stat := stat));
      gs.conns := gs.conns[who := p.(stat := stat)];
      BroadcastUStat(gs, cid, p.mode, p.curLobby, SendUStat(cid, uid, stat));
    }
  }

  /** The notification loop of `handle_send_ustat`. */
  method BroadcastUStat(gs: GameServer, cid: i32, mode: Mode, lobby: i8, packet: Packet)
    requires gs.Valid()
    modifies gs`conns
    ensures gs.Valid()
    ensures gs.conns == UStatSent(old(gs.conns), cid, mode, lobby, Queued(None, packet))
  {
    var conns0, q := gs.conns, Queued(None, packet);
    assert UStatSentUpTo(conns0, 0, cid, mode, lobby, q) == conns0;
    var i := 0;
    while i < |conns0|
      invariant 0 <= i <= |conns0|
      invariant gs.conns == UStatSentUpTo(conns0, i, cid, mode, lobby, q)
    {
      UStatStep(conns0, i, cid, mode, lobby, q);
      if HearsUStat(gs.conns[i], cid, mode, lobby) {
        gs.Write(i, packet);
      }
      i := i + 1;
    }
  }

  /** Whether Rust's `char::is_whitespace` holds: the characters with the
      Unicode `White_Space` property. */
  predicate IsWhitespace(c: char) {
    c == ' ' || '\t' <= c <= '\r' || c == '\U{85}' || c == '\U{A0}' || c == '\U{1680}'
    || '\U{2000}' <= c <= '\U{200A}' || c == '\U{2028}' || c == '\U{2029}' || c == '\U{202F}'
    || c == '\U{205F}' || c == '\U{3000}'
  }

  /** How many whitespace characters begin `s`. */
  function LeadingSpace(s: string): (n: nat)
    ensures n <= |s|
    ensures forall k :: 0 <= k < n ==> IsWhitespace(s[k])
    ensures n < |s| ==> !IsWhitespace(s[n])
  {
    if s == [] || !IsWhitespace(s[0]) then 0 else 1 + LeadingSpace(s[1..])
  }

  /** How many whitespace characters end `s`. */
  function TrailingSpace(s: string): (n: nat)
    ensures n <= |s|
    ensures forall k :: |s| - n <= k < |s| ==> IsWhitespace(s[k])
    ensures n < |s| ==> !IsWhitespace(s[|s| - n - 1])
  {
    if s == [] || !IsWhitespace(s[|s| - 1]) then 0 else 1 + TrailingSpace(s[..|s| - 1])
  }

  /** `str::trim`: `s` without its leading and trailing whitespace. The
      result is a slice of `s` that neither starts nor ends with
      whitespace, and everything cut off is whitespace. */
  function Trim(s: string): (r: string)
    ensures r == [] || (!IsWhitespace(r[0]) && !IsWhitespace(r[|r| - 1]))
    ensures exists i, j :: (0 <= i <= j <= |s| && r == s[i..j]
      && (forall k :: 0 <= k < i ==> IsWhitespace(s[k]))
      && (forall k :: j <= k < |s| ==> IsWhitespace(s[k])))
  {
    var i := LeadingSpace(s);
    var rest := s[i..];
    var j := |s| - TrailingSpace(rest);
    assert rest[..|rest| - TrailingSpace(rest)] == s[i..j];
    s[i..j]
  }

  /** Trimming twice is trimming once. */
  lemma TrimIdempotent(s: string)
    ensures Trim(Trim(s)) == Trim(s)
  {
    var t := Trim(s);
    if t != [] {
      assert LeadingSpace(t) == 0;
      assert TrailingSpace(t) == 0;
      assert t[0..] == t;
      assert t[0..|t|] == t;
    }
  }

  /** `handle_set_player_name`: the trimmed name is stored when the
      storage call (`stored`) succeeds, with an OK reply; otherwise the
      name stays and the reply is an error. */
  method HandleSetPlayerName(gs: GameServer, who: nat, name: string, stored: bool)
    requires gs.Valid() && who < |gs.conns|
    modifies gs`conns
    ensures gs.Valid()
    ensures var p := old(gs.conns[who]);
      if stored then gs.conns == Deliver(old(gs.conns)[who := p.(name := Trim(name))], who,
                                         Queued(None, AckSetCharacterName(StatusOk)))
      else gs.conns == Deliver(old(gs.conns), who, Queued(None, AckSetCharacterName(StatusErr)))
  {
    var trimmed := Trim(name);
    if stored {
      var p := gs.conns[who];
      SameSeat(gs.conns, who, p.(name := trimmed));
      gs.conns := gs.conns[who := p.(name := trimmed)];
      gs.Write(who, AckSetCharacterName(StatusOk));
    } else {
      gs.Write(who, AckSetCharacterName(StatusErr));
    }
  }

  /** The index of the first player with user id `uid`, or -1. */
  function UidIndex(conns: seq<Player>, uid: i32): (k: int)
    ensures -1 <= k < |conns|
    ensures k == -1 <==> forall i :: 0 <= i < |conns| ==> conns[i].uid != uid
    ensures k >= 0 ==> conns[k].uid == uid && forall i :: 0 <= i < k ==> conns[i].uid != uid
  {
    if conns == [] then -1
    else
      var n := |conns| - 1;
      var k := UidIndex(conns[..n], uid);
      if k >= 0 then k else if conns[n].uid == uid then n else -1
  }

  /** `handle_req_udata`: the user data of the first player with the
      requested uid, with the request's pid; nothing when nobody has it. */
  method HandleReqUData(gs: GameServer, pid: i16, who: nat, uid: i32)
    requires gs.Valid() && who < |gs.conns|
    modifies gs`conns
    ensures gs.Valid()
    ensures var k := UidIndex(old(gs.conns), uid);
      if k < 0 then gs.conns == old(gs.conns)
      else gs.conns == Deliver(old(gs.conns), who, Queued(Some(pid), SendUData(MakeUData(old(gs.conns)[k]))))
  {
    var i := 0;
    while i < |gs.conns|
      invariant 0 <= i <= |gs.conns|
      invariant forall j :: 0 <= j < i ==> gs.conns[j].uid != uid
    {
      if gs.conns[i].uid == uid {
        assert UidIndex(gs.conns, uid) == i;
        gs.WriteWithPid(who, SendUData(MakeUData(gs.conns[i])), pid);
        return;
      }
      i := i + 1;
    }
  }

  /** `handle_get_money`: the player's GP and SC balances, with the given
      pid. */
  method HandleGetMoney(gs: GameServer, pid: i16, who: nat)
    requires gs.Valid() && who < |gs.conns|
    modifies gs`conns
    ensures gs.Valid()
    ensures var u := old(gs.conns[who]).user;
      gs.conns == Deliver(old(gs.conns), who, Queued(Some(pid), RepMoney(u.gp, u.sc)))
  {
    var u := gs.conns[who].user;
    gs.WriteWithPid(who, RepMoney(u.gp, u.sc), pid);
  }

  /** `handle_get_inventory`: the inventory and its length, cast to `i32`
      as the source does. */
  method HandleGetInventory(gs: GameServer, who: nat)
    requires gs.Valid() && who < |gs.conns|
    modifies gs`conns
    ensures gs.Valid()
    ensures var inv := old(gs.conns[who]).user.inventory;
      gs.conns == Deliver(old(gs.conns), who, Queued(None, SendInventory(WrapI32(|inv|), inv)))
  {
    var inv := gs.conns[who].user.inventory;
    gs.Write(who, SendInventory(WrapI32(|inv|), inv));
  }

  /** `handle_get_golfbag`: the player's cid and golf bag. */
  method HandleGetGolfbag(gs: GameServer, who: nat)
    requires gs.Valid() && who < |gs.conns|
    modifies gs`conns
    ensures gs.Valid()
    ensures var p := old(gs.conns[who]);
      gs.conns == Deliver(old(gs.conns), who, Queued(None, SendGolfbag(p.cid, p.user.golfbag)))
  {
    var p := gs.conns[who];
    gs.Write(who, SendGolfbag(p.cid, p.user.golfbag));
  }

  /** `handle_chg_holdbox`: the hold box becomes the eight given items and
      the reply is OK. */
  method HandleChgHoldbox(gs: GameServer, who: nat, holdItems: seq<Item>)
    requires gs.Valid() && who < |gs.conns| && |holdItems| == 8
    modifies gs`conns
    ensures gs.Valid()
    ensures var p := old(gs.conns[who]);
      gs.conns == Deliver(old(gs.conns)[who := p.(user := p.user.(holdbox := holdItems))], who,
                          Queued(None, AckChgHoldbox(StatusOk)))
  {
    var p := gs.conns[who];
    SameSeat(gs.conns, who, p.(user := p.user.(holdbox := holdItems)));
    gs.conns := gs.conns[who := p.(user := p.user.(holdbox := holdItems))];
    gs.Write(who, AckChgHoldbox(StatusOk));
  }
}
