/** The game server's own handlers and its message loop (src/gs2/mod.rs):
    switching a player's game mode, removing a player who logged out,
    dispatching a packet from a player to its handler, and the loop that
    takes logins, packets and logouts one at a time.

    What storage and the random number generator answer comes in with the
    message (`Outside`). */
module Dispatch {
  import opened Wrappers
  import opened Strings
  import opened Packets
  import opened Rooms
  import opened Users
  import opened GameServers
  import LobbyMgmt
  import GameMgmt
  import UserMgmt
  import ShopMgmt
  import CharaMgmt
  import RecordMgmt
  import Records

  // ---------------------------------------------------------------------
  // Leaving the lobby before a mode change or a removal

  /** The players and lobbies after `eject_from_lobby` when the player at
      `who` is in a lobby, and as they are when not; `None` where the
      source fails (no such lobby, or a member that is not connected). */
  function AfterEject(conns: seq<Player>, lookup: map<i32, int>, ls: Lobbies, who: nat)
    : (r: Option<(seq<Player>, Lobbies)>)
    requires who < |conns|
    ensures r.Some? ==> |r.value.0| == |conns|
    ensures r.Some? ==> r.value.0[who].curLobby < 0
    ensures r.Some? ==> r.value.0[who] == conns[who].(curLobby := r.value.0[who].curLobby, outbox := r.value.0[who].outbox)
    ensures r.Some? ==> forall i :: 0 <= i < |conns| && i != who ==> r.value.0[i].cid == conns[i].cid
  {
    var p := conns[who];
    if p.curLobby < 0 then Some((conns, ls))
    else
      match LobbyAt(ls, p.mode, p.curLobby)
      case None => None
      case Some(l) =>
        if p.cid !in l.members then None
        else
          var left := p.(curLobby := -1);
          var l' := LobbyMgmt.Left(l, p.cid);
          match Relayed(conns[who := left], lookup, l'.members, None, Queued(None, SendUListL(MakeUList(left))))
          case None => None
          case Some(cs) =>
            RelayedOnlyOutboxes(conns[who := left], lookup, l'.members, None, Queued(None, SendUListL(MakeUList(left))), who);
            Some((cs, WithLobby(ls, p.mode, p.curLobby, l')))
  }

  /** A relay changes only outboxes. */
  lemma {:induction false} RelayedOnlyOutboxes(conns: seq<Player>, lookup: map<i32, int>, cids: seq<i32>, skip: Option<i32>, q: Queued, j: nat)
    requires j < |conns| && Relayed(conns, lookup, cids, skip, q).Some?
    ensures var r := Relayed(conns, lookup, cids, skip, q).value;
      |r| == |conns| && r[j] == conns[j].(outbox := r[j].outbox)
  {
    if cids != [] {
      RelayedOnlyOutboxes(conns, lookup, cids[..|cids| - 1], skip, q, j);
    }
  }

  /** On a valid server the ejection from the current lobby is defined,
      and it is what `EjectFromLobby` leaves behind. */
  lemma EjectedAsStated(conns: seq<Player>, lookup: map<i32, int>, ls: Lobbies, who: nat, conns': seq<Player>, ls': Lobbies)
    requires who < |conns| && conns[who].curLobby >= 0
    requires var p := conns[who]; var lobby := LobbyAt(ls, p.mode, p.curLobby);
      lobby.Some? && p.cid in lobby.value.members
      && ls' == WithLobby(ls, p.mode, p.curLobby, LobbyMgmt.Left(lobby.value, p.cid))
      && Relayed(conns[who := p.(curLobby := -1)], lookup, LobbyMgmt.Left(lobby.value, p.cid).members, None,
           Queued(None, SendUListL(MakeUList(p.(curLobby := -1))))) == Some(conns')
    ensures AfterEject(conns, lookup, ls, who) == Some((conns', ls'))
  {
  }

  /** A player in no lobby may change mode: the invariant is kept. */
  lemma ModeChangeValid(nextCid: int, conns: seq<Player>, lookup: map<i32, int>, ls: Lobbies, who: nat, mode: Mode)
    requires ServerValid(nextCid, Roster(conns), lookup, ls)
    requires who < |conns| && conns[who].curLobby < 0
    ensures ServerValid(nextCid, Roster(conns[who := conns[who].(mode := mode)]), lookup, ls)
  {
    var roster := Roster(conns);
    var roster' := Roster(conns[who := conns[who].(mode := mode)]);
    RosterUpdate(conns, who, conns[who].(mode := mode));
    assert LookupValid(roster', lookup);
    forall m, n, c | LobbyAt(ls, m, n).Some? && c in LobbyAt(ls, m, n).value.members
      ensures c in lookup && roster'[lookup[c]].mode == m && roster'[lookup[c]].lobby == n
    {
      LobbyMgmt.NotInLobbyNotMember(roster, lookup, ls, who, m, n);
    }
  }

  /** `handle_change_mode`: a player switching to another mode first
      leaves their lobby; the new mode is acknowledged in every case. */
  method HandleChangeMode(gs: GameServer, who: nat, mode: Mode) returns (out: Outcome)
    requires gs.Valid() && who < |gs.conns|
    modifies gs`conns, gs`lobbies
    ensures gs.Valid() && out == Done
    ensures var p := old(gs.conns[who]); var ack := Queued(None, AckChgMode(mode));
      if p.mode == mode then gs.conns == Deliver(old(gs.conns), who, ack) && gs.lobbies == old(gs.lobbies)
      else
        var e := AfterEject(old(gs.conns), gs.connLookup, old(gs.lobbies), who);
        e.Some? && gs.lobbies == e.value.1
        && gs.conns == Deliver(e.value.0[who := e.value.0[who].(mode := mode)], who, ack)
  {
    var p := gs.conns[who];
    if p.mode != mode {
      LeaveLobby(gs, who);
      ModeChangeValid(gs.nextCid, gs.conns, gs.connLookup, gs.lobbies, who, mode);
      gs.conns := gs.conns[who := gs.conns[who].(mode := mode)];
    }
    gs.Write(who, AckChgMode(mode));
    out := Done;
  }

  /** The player leaves their lobby if they are in one: `eject_from_lobby`
      behind the source's `cur_lobby >= 0` test. */
  method LeaveLobby(gs: GameServer, who: nat)
    requires gs.Valid() && who < |gs.conns|
    modifies gs`conns, gs`lobbies
    ensures gs.Valid()
    ensures var e := AfterEject(old(gs.conns), gs.connLookup, old(gs.lobbies), who);
      e.Some? && gs.conns == e.value.0 && gs.lobbies == e.value.1
  {
    if gs.conns[who].curLobby >= 0 {
      ghost var conns0, ls0 := gs.conns, gs.lobbies;
      var ejected := LobbyMgmt.EjectFromLobby(gs, who);
      EjectedAsStated(conns0, gs.connLookup, ls0, who, gs.conns, gs.lobbies);
    }
  }

  // ---------------------------------------------------------------------
  // Removing a player

  /** `swap_remove` keeps every other player reachable through the fixed
      lookup, at the same data; the entry fixed up for the moved player
      was the old last index, as the source asserts. */
  lemma RemoveKeepsOthers(conns: seq<Player>, lookup: map<i32, int>, who: nat, c: i32)
    requires LookupValid(Roster(conns), lookup) && who < |conns|
    requires c in lookup && c != conns[who].cid
    ensures var l, r := LookupAfterRemove(lookup, Roster(conns), who), SwapRemove(conns, who);
      c in l && 0 <= l[c] < |r| && r[l[c]] == conns[lookup[c]]
    ensures who < |conns| - 1 ==> lookup[conns[|conns| - 1].cid] == |conns| - 1
  {
    var last := |conns| - 1;
    assert Roster(conns)[last].cid == conns[last].cid;
    if c != conns[last].cid {
      assert lookup[c] != who && lookup[c] != last;
    }
  }

  /** `remove_player`: a player with the cid leaves their lobby, then is
      swap-removed from the player list, and the lookup follows; an
      unknown cid is only logged. */
  method RemovePlayer(gs: GameServer, cid: i32)
    requires gs.Valid()
    modifies gs`conns, gs`lobbies, gs`connLookup
    ensures gs.Valid()
    ensures cid !in old(gs.connLookup) ==>
      gs.conns == old(gs.conns) && gs.connLookup == old(gs.connLookup) && gs.lobbies == old(gs.lobbies)
    ensures cid in old(gs.connLookup) ==>
      var who := old(gs.connLookup)[cid];
      0 <= who < |old(gs.conns)|
      && var e := AfterEject(old(gs.conns), old(gs.connLookup), old(gs.lobbies), who);
      e.Some? && gs.lobbies == e.value.1 && gs.conns == SwapRemove(e.value.0, who)
      && gs.connLookup == LookupAfterRemove(old(gs.connLookup), Roster(old(gs.conns)), who)
      && cid !in gs.connLookup
  {
    if cid !in gs.connLookup {
      return;
    }
    var who := gs.connLookup[cid];
    LeaveLobby(gs, who);
    DropPlayer(gs, who);
  }

  /** The removal proper, for a player in no lobby: `swap_remove`, the
      cid dropped from the lookup, and the player moved into the gap
      looked up at their new index. */
  method DropPlayer(gs: GameServer, who: nat)
    requires gs.Valid() && who < |gs.conns| && gs.conns[who].curLobby < 0
    modifies gs`conns, gs`connLookup
    ensures gs.Valid()
    ensures gs.conns == SwapRemove(old(gs.conns), who)
    ensures gs.connLookup == LookupAfterRemove(old(gs.connLookup), Roster(old(gs.conns)), who)
    ensures old(gs.conns[who]).cid !in gs.connLookup
  {
    ghost var roster, lookup := Roster(gs.conns), gs.connLookup;
    SwapRemoveServerValid(gs.nextCid, roster, lookup, gs.lobbies, who);
    RosterSwapRemove(gs.conns, who);
    var removed := gs.connLookup - {gs.conns[who].cid};
    var moved := gs.conns[|gs.conns| - 1].cid;
    gs.conns := SwapRemove(gs.conns, who);
    if who < |gs.conns| {
      removed := removed[moved := who];
    }
    assert removed == LookupAfterRemove(lookup, roster, who);
    gs.connLookup := removed;
  }

  /** Removing a player who is in no lobby keeps the server's invariant. */
  lemma SwapRemoveServerValid(nextCid: int, roster: seq<Seat>, lookup: map<i32, int>, ls: Lobbies, who: nat)
    requires ServerValid(nextCid, roster, lookup, ls) && who < |roster| && roster[who].lobby < 0
    ensures ServerValid(nextCid, SwapRemove(roster, who), LookupAfterRemove(lookup, roster, who), ls)
    ensures roster[who].cid !in LookupAfterRemove(lookup, roster, who)
  {
    SwapRemoveValid(roster, lookup, ls, who);
  }

  /** The roster of a swap-removed player list is the swap-removed
      roster. */
  lemma RosterSwapRemove(conns: seq<Player>, who: nat)
    requires who < |conns|
    ensures Roster(SwapRemove(conns, who)) == SwapRemove(Roster(conns), who)
  {
  }

  // ---------------------------------------------------------------------
  // Dispatching a packet from a player

  /** What the outside world answers while one packet is handled: the
      hole order the random number generator draws for a game start, and
      what storage answers when a name is saved, when a first character
      is created and when a course record is fetched. */
  datatype Outside = Outside(holeOrder: seq<int>, nameSaved: bool, createdChr: Option<i32>,
                             cRecord: Option<Records.CRecord>)

  /** The fixed-size fields of a decoded packet have their sizes. */
  predicate Decoded(packet: Packet) {
    (packet.ReqMakeRoom? ==> Rooms.RequestShaped(packet.request))
    && (packet.ChgHoldbox? ==> |packet.holdItems| == 8)
  }

  /** The handlers' source files, by which the packets with an arm in
      `handle_player_data` are grouped here. */
  datatype Arm = LobbyArm | RoomArm | GameArm | RelayArm | UserArm | ShopArm | CharaArm | RecordArm | ModeCtrlArm | NoArm

  /** The arm of `handle_player_data` a packet takes. */
  function ArmOf(packet: Packet): Arm {
    match packet
    case ReqChgMode(_) => LobbyArm
    case GetLobbyNum => LobbyArm
    case GetLobbyData(_, _) => LobbyArm
    case ReqEnterLobby(_) => LobbyArm
    case ReqUListL(_, _) => LobbyArm
    case ReqMakeRoom(_) => RoomArm
    case GetRooms => RoomArm
    case ReqEnterRoom(_, _) => RoomArm
    case ReqUList(_, _, _) => RoomArm
    case ReqGameStart => GameArm
    case ClientShot(_, _, _, _, _, _, _) => GameArm
    case ClientStopBallPos(_, _, _, _, _) => GameArm
    case InitSingleMode => GameArm
    case ClientCrClub(_) => RelayArm
    case ClientDirection(_) => RelayArm
    case ClientBallPos(_, _, _, _, _) => RelayArm
    case ClientLoadStat(_) => RelayArm
    case ClientLoadStat2(_) => RelayArm
    case ClientPCommand(_, _, _) => RelayArm
    case SendUStat(_, _, _) => UserArm
    case GetMoney => UserArm
    case SetPlayerName(_) => UserArm
    case GetInventory => UserArm
    case GetGolfbag => UserArm
    case ReqUData(_) => UserArm
    case ChgHoldbox(_) => UserArm
    case GetSellItems => ShopArm
    case ReqBuyItem(_) => ShopArm
    case GetSalonItems => ShopArm
    case ReqAppear(_) => CharaArm
    case SetFirstCharacterAppearance(_) => CharaArm
    case ReqChrData(_, _) => CharaArm
    case GetChrData(_) => CharaArm
    case ReqChgAppear(_, _, _) => CharaArm
    case GetCurrChrUid(_) => CharaArm
    case ReqChgChrParam(_, _, _, _, _, _) => CharaArm
    case ReqCRecord(_, _, _, _) => RecordArm
    case GetModeCtrl => ModeCtrlArm
    case _ => NoArm
  }

  /** The mode-control flags the server sends: all 92 set. */
  const AllModes: seq<bool> := Repeat(true, 92)

  /** `handle_player_data`: the packet goes to its handler; `GET_MODECTRL`
      is answered here with every mode enabled, and a packet without an
      arm is only logged. Only the lobby, room and game packets touch the
      lobbies, and no packet connects or disconnects anyone. */
  method HandlePlayerData(gs: GameServer, who: nat, pid: i16, packet: Packet, env: Outside) returns (out: Outcome)
    requires gs.Valid() && who < |gs.conns| && Decoded(packet) && |env.holeOrder| == 18
    modifies gs`conns, gs`lobbies
    ensures gs.Valid() && gs.connLookup == old(gs.connLookup)
    ensures ArmOf(packet) == NoArm ==> out == Done && gs.conns == old(gs.conns) && gs.lobbies == old(gs.lobbies)
    ensures ArmOf(packet) == ModeCtrlArm ==>
      out == Done && gs.conns == Deliver(old(gs.conns), who, Queued(None, SendModeCtrl(AllModes)))
      && gs.lobbies == old(gs.lobbies)
    ensures ArmOf(packet) in {UserArm, ShopArm, CharaArm, RecordArm} ==> gs.lobbies == old(gs.lobbies)
    ensures ArmOf(packet) == RecordArm ==>
      out == Done && gs.conns == Deliver(old(gs.conns), who, Queued(Some(pid),
        RecordMgmt.CRecordReply(packet.uid, packet.course, packet.season, packet.holeIdx, env.cRecord)))
  {
    var arm := ArmOf(packet);
    if arm == LobbyArm {
      out := DispatchLobby(gs, who, pid, packet);
    } else if arm == RoomArm {
      out := DispatchRoom(gs, who, pid, packet);
    } else if arm == GameArm {
      out := DispatchGame(gs, who, packet, env.holeOrder);
    } else if arm == RelayArm {
      out := DispatchRelay(gs, who, packet);
    } else if arm == UserArm {
      out := DispatchUser(gs, who, pid, packet, env.nameSaved);
    } else if arm == ShopArm {
      out := DispatchShop(gs, who, packet);
    } else if arm == CharaArm {
      out := DispatchChara(gs, who, pid, packet, env.createdChr);
    } else if arm == RecordArm {
      RecordMgmt.HandleGetCRecord(gs, pid, who, packet.uid, packet.course, packet.season, packet.holeIdx, env.cRecord);
      out := Done;
    } else if arm == ModeCtrlArm {
      gs.Write(who, SendModeCtrl(AllModes));
      out := Done;
    } else {
      out := Done;
    }
  }

  /** The arms for modes and lobbies. */
  method DispatchLobby(gs: GameServer, who: nat, pid: i16, packet: Packet) returns (out: Outcome)
    requires gs.Valid() && who < |gs.conns|
    modifies gs`conns, gs`lobbies
    ensures gs.Valid()
  {
    out := Done;
    if packet.ReqChgMode? {
      out := HandleChangeMode(gs, who, packet.mode);
    } else if packet.GetLobbyNum? {
      out := LobbyMgmt.HandleGetLobbyNum(gs, who);
    } else if packet.GetLobbyData? {
      LobbyMgmt.HandleGetLobbyData(gs, pid, who, packet.index, packet.mode);
    } else if packet.ReqEnterLobby? {
      out := LobbyMgmt.HandleEnterLobby(gs, who, packet.num);
    } else if packet.ReqUListL? {
      out := LobbyMgmt.HandleReqLobbyMembers(gs, pid, who, packet.num, packet.mode);
    }
  }

  /** The arms for rooms. */
  method DispatchRoom(gs: GameServer, who: nat, pid: i16, packet: Packet) returns (out: Outcome)
    requires gs.Valid() && who < |gs.conns| && Decoded(packet)
    modifies gs`conns, gs`lobbies
    ensures gs.Valid()
  {
    out := Done;
    if packet.ReqMakeRoom? {
      out := LobbyMgmt.HandleMakeRoom(gs, pid, who, packet.request);
    } else if packet.GetRooms? {
      out := LobbyMgmt.HandleGetRooms(gs, pid, who);
    } else if packet.ReqEnterRoom? {
      out := LobbyMgmt.HandleEnterRoom(gs, pid, who, packet.roomNum, WToString(packet.password));
    } else if packet.ReqUList? {
      out := LobbyMgmt.HandleGetRoomMembers(gs, pid, who, packet.mode, packet.lobby, packet.roomNum);
    }
  }

  /** The arms that start or play a game. */
  method DispatchGame(gs: GameServer, who: nat, packet: Packet, holeOrder: seq<int>) returns (out: Outcome)
    requires gs.Valid() && who < |gs.conns| && |holeOrder| == 18
    modifies gs`conns, gs`lobbies
    ensures gs.Valid()
  {
    out := Done;
    if packet.ReqGameStart? {
      out := GameMgmt.HandleStartGame(gs, who, holeOrder);
    } else if packet.ClientShot? {
      out := GameMgmt.HandleShotInfo(gs, who, packet.clock, packet.dir, packet.power, packet.impact,
                                     packet.hitX, packet.hitY, packet.shotClub);
    } else if packet.ClientStopBallPos? {
      out := GameMgmt.HandleStopBallPos(gs, who, packet.hole, packet.ballStat, packet.x, packet.y, packet.z);
    } else if packet.InitSingleMode? {
      GameMgmt.HandleInitSingleMode(gs, who);
    }
  }

  /** The arms that pass what a player does on to the rest of their room:
      `handle_shot_club`, `handle_shot_dir` and `handle_ballpos` are each
      one relay of the packet with the player's cid. */
  method DispatchRelay(gs: GameServer, who: nat, packet: Packet) returns (out: Outcome)
    requires gs.Valid() && who < |gs.conns|
    modifies gs`conns
    ensures gs.Valid()
  {
    out := Done;
    var cid := gs.conns[who].cid;
    if packet.ClientCrClub? {
      out := GameMgmt.SendToRoommates(gs, who, SendCrClub(cid, packet.shotClub));
    } else if packet.ClientDirection? {
      out := GameMgmt.SendToRoommates(gs, who, SendDirection(cid, packet.dir));
    } else if packet.ClientBallPos? {
      out := GameMgmt.SendToRoommates(gs, who, SendBallPos(cid, packet.hole, packet.ballStat, packet.x, packet.y, packet.z));
    } else if packet.ClientLoadStat? {
      out := GameMgmt.HandleSendLoadStat(gs, who, packet.progress, false);
    } else if packet.ClientLoadStat2? {
      out := GameMgmt.HandleSendLoadStat(gs, who, packet.progress, true);
    } else if packet.ClientPCommand? {
      out := GameMgmt.HandleSendPCommand(gs, who, packet.cmdAndFlag, packet.p0, packet.p1);
    }
  }

  /** The arms for the account data. */
  method DispatchUser(gs: GameServer, who: nat, pid: i16, packet: Packet, nameSaved: bool) returns (out: Outcome)
    requires gs.Valid() && who < |gs.conns| && Decoded(packet)
    modifies gs`conns
    ensures gs.Valid()
  {
    out := Done;
    if packet.SendUStat? {
      UserMgmt.HandleSendUStat(gs, who, packet.cid, packet.uid, packet.stat);
    } else if packet.GetMoney? {
      UserMgmt.HandleGetMoney(gs, pid, who);
    } else if packet.SetPlayerName? {
      UserMgmt.HandleSetPlayerName(gs, who, packet.name, nameSaved);
    } else if packet.GetInventory? {
      UserMgmt.HandleGetInventory(gs, who);
    } else if packet.GetGolfbag? {
      UserMgmt.HandleGetGolfbag(gs, who);
    } else if packet.ReqUData? {
      UserMgmt.HandleReqUData(gs, pid, who, packet.uid);
    } else if packet.ChgHoldbox? {
      UserMgmt.HandleChgHoldbox(gs, who, packet.holdItems);
    }
  }

  /** The arms for the shop. */
  method DispatchShop(gs: GameServer, who: nat, packet: Packet) returns (out: Outcome)
    requires gs.Valid() && who < |gs.conns|
    modifies gs`conns
    ensures gs.Valid()
  {
    out := Done;
    if packet.GetSellItems? {
      ShopMgmt.HandleGetSellItems(gs, who);
    } else if packet.ReqBuyItem? {
      ShopMgmt.HandleBuyItem(gs, who, packet.item);
    } else if packet.GetSalonItems? {
      ShopMgmt.HandleGetSalonItems(gs, who);
    }
  }

  /** The arms for characters. */
  method DispatchChara(gs: GameServer, who: nat, pid: i16, packet: Packet, createdChr: Option<i32>) returns (out: Outcome)
    requires gs.Valid() && who < |gs.conns|
    modifies gs`conns
    ensures gs.Valid()
  {
    out := Done;
    if packet.ReqAppear? {
      CharaMgmt.GetActiveAppearance(gs, pid, who, packet.cid);
    } else if packet.SetFirstCharacterAppearance? {
      CharaMgmt.HandleCreateFirstCharacter(gs, who, packet.appearance, createdChr);
    } else if packet.ReqChrData? {
      CharaMgmt.HandleReqChrData(gs, pid, who, packet.cid, packet.chrUid);
    } else if packet.GetChrData? {
      CharaMgmt.HandleGetChrData(gs, who, packet.cid);
    } else if packet.ReqChgAppear? {
      CharaMgmt.HandleReqChgAppear(gs, who, packet.cid, packet.chrUid, packet.appearance);
    } else if packet.GetCurrChrUid? {
      CharaMgmt.HandleGetCurrChrUid(gs, pid, who, packet.cid);
    } else if packet.ReqChgChrParam? {
      out := CharaMgmt.HandleReqChgChrParam(gs, who, packet);
    }
  }

  // ---------------------------------------------------------------------
  // The server task

  /** A message to the server task: a login, with what storage answered
      for the credentials; a packet from the player with a cid, with what
      the outside world answers while it is handled; or a logout. */
  datatype Message =
    | Login(username: string, account: Result<Account, ()>)
    | PlayerData(cid: i32, pid: i16, packet: Packet, env: Outside)
    | Logout(cid: i32)

  /** A packet message as the connection task builds it. */
  predicate MessageShaped(m: Message) {
    m.PlayerData? ==> Decoded(m.packet) && |m.env.holeOrder| == 18
  }

  /** One turn of the loop in `start`: a login is answered, a logout
      removes the player, and a packet goes to `handle_player_data` when
      its cid is connected and is dropped otherwise. */
  method HandleMessage(gs: GameServer, m: Message) returns (out: Outcome, reply: Option<LoginResult>)
    requires gs.Valid() && MessageShaped(m)
    modifies gs
    ensures gs.Valid()
    ensures reply.Some? <==> m.Login?
    ensures gs.shopItems == old(gs.shopItems) && gs.salonItems == old(gs.salonItems)
    ensures !m.Login? ==> gs.nextCid == old(gs.nextCid)
    ensures m.Login? && reply.value.LoginSuccess? ==> reply.value.cid in gs.connLookup
    ensures m.Logout? ==> out == Done && m.cid !in gs.connLookup
    ensures m.PlayerData? ==> gs.connLookup == old(gs.connLookup)
    ensures m.PlayerData? && m.cid !in old(gs.connLookup) ==>
      out == Done && gs.conns == old(gs.conns) && gs.lobbies == old(gs.lobbies)
  {
    out := Done;
    reply := None;
    match m {
      case Login(username, account) =>
        var r := gs.HandleLogin(username, account);
        reply := Some(r);
      case Logout(cid) =>
        RemovePlayer(gs, cid);
      case PlayerData(cid, pid, packet, env) =>
        if cid in gs.connLookup {
          var who := gs.connLookup[cid];
          out := HandlePlayerData(gs, who, pid, packet, env);
        }
    }
  }

  /** The loop in `start`: the messages in order, until one makes the
      task panic or a login finds every cid taken, where `generate_cid`
      never returns and the task handles nothing more. The server stays
      valid throughout; `handled` messages were taken, and fewer than all
      only after a panic or at a hung login. */
  method Serve(gs: GameServer, msgs: seq<Message>) returns (handled: nat, crashed: bool, hung: bool)
    requires gs.Valid() && forall i :: 0 <= i < |msgs| ==> MessageShaped(msgs[i])
    modifies gs
    ensures gs.Valid()
    ensures handled <= |msgs| && !(crashed && hung)
    ensures handled < |msgs| <==> crashed || hung
    ensures hung ==> msgs[handled].Login?
    ensures gs.shopItems == old(gs.shopItems) && gs.salonItems == old(gs.salonItems)
  {
    handled, crashed, hung := 0, false, false;
    while handled < |msgs|
      invariant handled <= |msgs| && gs.Valid()
      invariant gs.shopItems == old(gs.shopItems) && gs.salonItems == old(gs.salonItems)
    {
      var out, reply := HandleMessage(gs, msgs[handled]);
      if reply == Some(LoginHung) {
        hung := true;
        return;
      }
      if out == Panicked {
        crashed := true;
        return;
      }
      handled := handled + 1;
    }
  }
}
