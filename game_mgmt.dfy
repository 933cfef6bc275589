/** The in-game handlers of the game server (src/gs2/game_mgmt.rs):
    starting a game, and relaying what a player does in a room to the other
    players of the room. The hole order the source shuffles at random is a
    parameter here: any ordering of the eighteen holes. */
module GameMgmt {
  import opened Wrappers
  import opened Packets
  import opened Rooms
  import opened GameServers
  import opened LobbyMgmt
  import opened Items
  import opened CountedItems

  /** The number of places in the cid array of `ORD_GAMESTART`. */
  const CidSlots := 50

  /** The eighteen holes in course order. */
  function AllHoles(): (r: seq<int>)
    ensures |r| == 18 && forall i :: 0 <= i < 18 ==> r[i] == i
  {
    seq(18, i => i)
  }

  /** `hole_no.shuffle(..)`: the holes in some order. */
  ghost predicate IsHoleShuffle(order: seq<int>) {
    |order| == 18 && multiset(order) == multiset(AllHoles())
  }

  /** `hole_no[3..].fill(-1)`: the first three holes of the order, then -1. */
  function HoleNumbers(order: seq<int>): (r: seq<int>)
    requires |order| == 18
    ensures |r| == 18 && r[..3] == order[..3]
    ensures forall i :: 3 <= i < 18 ==> r[i] == -1
  {
    order[..3] + Repeat(-1, 15)
  }

  /** A game's holes are three different holes of the course, then fifteen
      unused places. */
  lemma HoleNumbersShape(order: seq<int>)
    requires IsHoleShuffle(order)
    ensures var r := HoleNumbers(order);
      |r| == 18 && (forall i :: 3 <= i < 18 ==> r[i] == -1)
      && (forall i :: 0 <= i < 3 ==> 0 <= r[i] < 18)
      && r[0] != r[1] && r[0] != r[2] && r[1] != r[2]
  {
    var r := HoleNumbers(order);
    forall i | 0 <= i < 3 ensures 0 <= r[i] < 18 {
      assert order[i] in multiset(order);
      assert order[i] in multiset(AllHoles());
    }
    forall i, j | 0 <= i < j < 3 ensures r[i] != r[j] {
      if r[i] == r[j] {
        var x := order[i];
        assert multiset(order)[x] >= 2 by {
          assert order == order[..j] + order[j..];
          assert x in multiset(order[..j]) by { assert order[..j][i] == x; }
          assert x in multiset(order[j..]) by { assert order[j..][0] == x; }
        }
        assert x in AllHoles();
        var k :| 0 <= k < 18 && AllHoles()[k] == x;
        assert multiset(AllHoles())[x] == 1 by {
          AllHolesDistinct(x);
        }
        assert false;
      }
    }
  }

  /** Each hole appears once in the course order. */
  lemma AllHolesDistinct(x: int)
    requires 0 <= x < 18
    ensures multiset(AllHoles())[x] == 1
  {
    var h := AllHoles();
    assert h == h[..x] + [x] + h[x + 1..];
    assert x !in h[..x];
    assert x !in h[x + 1..];
  }

  /** The cid array of a game: the players in order, then -1 up to fifty
      places; `None` when there are more than fifty players and writing
      the fifty-first runs past the array. */
  function PaddedCids(cids: seq<i32>): (r: Option<seq<i32>>)
    ensures r.Some? <==> |cids| <= CidSlots
    ensures r.Some? ==> (|r.value| == CidSlots
      && (forall i :: 0 <= i < |cids| ==> r.value[i] == cids[i])
      && (forall i :: |cids| <= i < CidSlots ==> r.value[i] == -1))
  {
    if |cids| <= CidSlots then Some(cids + Repeat(-1, CidSlots - |cids|)) else None
  }

  /** The cid-array loop of `generate_vs_game`: a fifty-place array of -1
      into which each member is written at its index. */
  method FillCidArray(cids: seq<i32>) returns (r: Option<seq<i32>>)
    ensures r == PaddedCids(cids)
  {
    var a := new i32[CidSlots](_ => -1);
    var i := 0;
    while i < |cids|
      invariant 0 <= i <= |cids| && i <= CidSlots
      invariant forall j :: 0 <= j < i ==> a[j] == cids[j]
      invariant forall j :: i <= j < CidSlots ==> a[j] == -1
    {
      if i == CidSlots {
        return None;
      }
      a[i] := cids[i];
      i := i + 1;
    }
    r := Some(a[..]);
    assert r.value == cids + Repeat(-1, CidSlots - |cids|);
  }

  /** `generate_single_mode_game`: a three-hole stroke game of one player,
      unlimited in time, on course 0 in season 1. */
  function SingleGame(cid: i32, order: seq<int>): (g: GameStart)
    requires |order| == 18
    ensures |g.cids| == CidSlots && g.cids[0] == cid
    ensures forall i :: 1 <= i < CidSlots ==> g.cids[i] == -1
    ensures g.holes == 3 && g.holeNo == HoleNumbers(order) && g.holeNo[..3] == order[..3]
  {
    GameStart(Single, 0, 0, 1, 1, 0, 1, 3, HoleNumbers(order), [cid] + Repeat(-1, CidSlots - 1))
  }

  /** A single-mode game lists the player alone. */
  lemma SingleGameShape(cid: i32, order: seq<int>)
    requires |order| == 18
    ensures var g := SingleGame(cid, order);
      g.mode == Single && g.member == 1 && g.memberMax == 1 && g.holes == 3
      && g.cids == PaddedCids([cid]).value && g.holeNo == HoleNumbers(order)
  {
    assert [cid] + Repeat(-1, CidSlots - 1) == PaddedCids([cid]).value;
  }

  /** `generate_vs_game`: the room's players in the cid array and their
      number as the head count; the source unwraps the room's capacity as
      an `i8`, so a room above 127 places cannot start. */
  function VsGame(room: Room, order: seq<int>): (r: Option<GameStart>)
    requires |order| == 18
    ensures r.Some? <==> |room.members| <= CidSlots && room.maxMembers <= 127
    ensures r.Some? ==> (r.value.mode == VS && r.value.member == |room.members| && r.value.memberMax == room.maxMembers
      && r.value.cids == PaddedCids(room.members).value && r.value.holeNo == HoleNumbers(order))
  {
    match PaddedCids(room.members)
    case None => None
    case Some(cids) =>
      if room.maxMembers <= 127 then Some(GameStart(VS, 0, 0, |room.members|, room.maxMembers, 0, 1, 3, HoleNumbers(order), cids))
      else None
  }

  method GenerateVsGame(room: Room, order: seq<int>) returns (r: Option<GameStart>)
    requires |order| == 18
    ensures r == VsGame(room, order)
  {
    var cids := FillCidArray(room.members);
    if cids.None? || room.maxMembers > 127 {
      return None;
    }
    r := Some(GameStart(VS, 0, 0, |room.members|, room.maxMembers, 0, 1, 3, HoleNumbers(order), cids.value));
  }

  /** The room a player is in, as the handlers look it up. */
  function CurrentRoom(gs: GameServer, who: nat): Option<Room>
    requires who < |gs.conns|
    reads gs
  {
    RoomAt(gs.lobbies, gs.conns[who].mode, gs.conns[who].curLobby, gs.conns[who].curRoom)
  }

  /** `send_packet_to_roommates`: the packet to every member of the
      player's room but the player, in member order; an error when the
      player is in no room. */
  method SendToRoommates(gs: GameServer, who: nat, packet: Packet) returns (out: Outcome)
    requires gs.Valid() && who < |gs.conns|
    modifies gs`conns
    ensures gs.Valid()
    ensures var room := old(CurrentRoom(gs, who)); var p := old(gs.conns[who]);
      if room.None? then out == Bailed && gs.conns == old(gs.conns)
      else
        out != Bailed && (out == Done <==> TargetsConnected(gs.connLookup, room.value.members, Some(p.cid)))
        && (out == Done ==> Relayed(old(gs.conns), gs.connLookup, room.value.members, Some(p.cid), Queued(None, packet)) == Some(gs.conns))
  {
    var room := CurrentRoom(gs, who);
    if room.None? {
      return Bailed;
    }
    out := Announce(gs, room.value.members, Some(gs.conns[who].cid), Queued(None, packet));
  }

  /** `handle_send_loadstat` and `handle_send_loadstat2`: the progress to
      the other players of the room; a player in no room is only logged. */
  method HandleSendLoadStat(gs: GameServer, who: nat, progress: i8, second: bool) returns (out: Outcome)
    requires gs.Valid() && who < |gs.conns|
    modifies gs`conns
    ensures gs.Valid() && out != Bailed
    ensures var room := old(CurrentRoom(gs, who)); var p := old(gs.conns[who]);
      var packet := if second then SendLoadStat2(p.cid, progress) else SendLoadStat(p.cid, progress);
      if room.None? then out == Done && gs.conns == old(gs.conns)
      else
        (out == Done <==> TargetsConnected(gs.connLookup, room.value.members, Some(p.cid)))
        && (out == Done ==> Relayed(old(gs.conns), gs.connLookup, room.value.members, Some(p.cid), Queued(None, packet)) == Some(gs.conns))
  {
    var p := gs.conns[who];
    var packet := if second then SendLoadStat2(p.cid, progress) else SendLoadStat(p.cid, progress);
    out := SendToRoommates(gs, who, packet);
    if out == Bailed {
      out := Done;
    }
  }

  /** The first step of `handle_shot_info`: the player becomes the current
      player of the room they are in. */
  method MarkShooter(gs: GameServer, who: nat)
    requires gs.Valid() && who < |gs.conns|
    modifies gs`lobbies
    ensures gs.Valid()
    ensures var room := old(CurrentRoom(gs, who)); var p := gs.conns[who];
      if room.None? then gs.lobbies == old(gs.lobbies)
      else
        gs.lobbies == WithRoom(old(gs.lobbies), p.mode, p.curLobby, p.curRoom, room.value.(currentPlayer := p.cid))
        && CurrentRoom(gs, who) == Some(room.value.(currentPlayer := p.cid))
  {
    var p := gs.conns[who];
    var room := CurrentRoom(gs, who);
    if room.Some? {
      RoomAtWellFormed(gs.lobbies, p.mode, p.curLobby, p.curRoom);
      WithRoomValid(Roster(gs.conns), gs.connLookup, gs.lobbies, p.mode, p.curLobby, p.curRoom, room.value.(currentPlayer := p.cid));
      gs.lobbies := WithRoom(gs.lobbies, p.mode, p.curLobby, p.curRoom, room.value.(currentPlayer := p.cid));
    }
  }

  /** `handle_shot_info`: the player becomes the room's current player,
      then the shot goes to the other players of the room. */
  method HandleShotInfo(gs: GameServer, who: nat, clock: nat, dir: F32, power: i16, impact: i16, hitX: i8, hitY: i8, club: i8)
    returns (out: Outcome)
    requires gs.Valid() && who < |gs.conns|
    modifies gs`conns, gs`lobbies
    ensures gs.Valid()
    ensures var room := old(CurrentRoom(gs, who)); var p := old(gs.conns[who]);
      var packet := SendShot(clock, p.cid, dir, power, impact, hitX, hitY, club);
      if room.None? then out == Bailed && gs.conns == old(gs.conns) && gs.lobbies == old(gs.lobbies)
      else
        gs.lobbies == WithRoom(old(gs.lobbies), p.mode, p.curLobby, p.curRoom, room.value.(currentPlayer := p.cid))
        && RoomAt(gs.lobbies, p.mode, p.curLobby, p.curRoom) == Some(room.value.(currentPlayer := p.cid))
        && out != Bailed && (out == Done <==> TargetsConnected(gs.connLookup, room.value.members, Some(p.cid)))
        && (out == Done ==> Relayed(old(gs.conns), gs.connLookup, room.value.members, Some(p.cid), Queued(None, packet)) == Some(gs.conns))
  {
    var p := gs.conns[who];
    MarkShooter(gs, who);
    out := SendToRoommates(gs, who, SendShot(clock, p.cid, dir, power, impact, hitX, hitY, club));
  }

  /** `handle_stop_ballpos`: in a room, only its current player may send
      where the ball stopped, and anyone else is ignored. The position is
      echoed to the sender and relayed to the other players of the room
      (an error after the echo for a player in no room). */
  method HandleStopBallPos(gs: GameServer, who: nat, hole: i8, stat: i8, x: F32, y: F32, z: F32) returns (out: Outcome)
    requires gs.Valid() && who < |gs.conns|
    modifies gs`conns
    ensures gs.Valid()
    ensures var room := old(CurrentRoom(gs, who)); var p := old(gs.conns[who]);
      var q := Queued(None, SendStopBallPos(p.cid, hole, stat, x, y, z));
      if room.Some? && room.value.currentPlayer != p.cid then out == Done && gs.conns == old(gs.conns)
      else if room.None? then out == Bailed && gs.conns == Deliver(old(gs.conns), who, q)
      else
        out != Bailed && (out == Done <==> TargetsConnected(gs.connLookup, room.value.members, Some(p.cid)))
        && (out == Done ==> Relayed(Deliver(old(gs.conns), who, q), gs.connLookup, room.value.members, Some(p.cid), q) == Some(gs.conns))
  {
    var p := gs.conns[who];
    var room := CurrentRoom(gs, who);
    if room.Some? && room.value.currentPlayer != p.cid {
      return Done;
    }
    var packet := SendStopBallPos(p.cid, hole, stat, x, y, z);
    gs.Write(who, packet);
    out := SendToRoommates(gs, who, packet);
  }

  /** Bit 15 of a command word: set, the command is not echoed. */
  predicate NoEcho(cmdAndFlag: bv16) {
    cmdAndFlag & 0x8000 != 0
  }

  /** `handle_send_pcommand`: the command is echoed to the sender unless
      bit 15 of its flag word is set, and always relayed to the other
      players of the room. */
  method HandleSendPCommand(gs: GameServer, who: nat, cmdAndFlag: bv16, p0: bv32, p1: bv32) returns (out: Outcome)
    requires gs.Valid() && who < |gs.conns|
    modifies gs`conns
    ensures gs.Valid()
    ensures var room := old(CurrentRoom(gs, who)); var p := old(gs.conns[who]);
      var q := Queued(None, SendPCommand(p.cid, p0, p1, cmdAndFlag));
      var echoed := if NoEcho(cmdAndFlag) then old(gs.conns) else Deliver(old(gs.conns), who, q);
      if room.None? then out == Bailed && gs.conns == echoed
      else
        out != Bailed && (out == Done <==> TargetsConnected(gs.connLookup, room.value.members, Some(p.cid)))
        && (out == Done ==> Relayed(echoed, gs.connLookup, room.value.members, Some(p.cid), q) == Some(gs.conns))
  {
    var p := gs.conns[who];
    var packet := SendPCommand(p.cid, p0, p1, cmdAndFlag);
    if !NoEcho(cmdAndFlag) {
      gs.Write(who, packet);
    }
    out := SendToRoommates(gs, who, packet);
  }

  /** The VS branch of `handle_start_game`. */
  method StartVsGame(gs: GameServer, who: nat, order: seq<int>) returns (out: Outcome)
    requires gs.Valid() && who < |gs.conns| && |order| == 18
    modifies gs`conns
    ensures gs.Valid()
    ensures var room := old(CurrentRoom(gs, who));
      if room.None? then out == Bailed && gs.conns == Deliver(old(gs.conns), who, Queued(None, AckGameStart(StatusErr)))
      else if VsGame(room.value, order).None? then out == Panicked && gs.conns == old(gs.conns)
      else
        out != Bailed && (out == Done <==> TargetsConnected(gs.connLookup, room.value.members, None))
        && (out == Done ==>
              var started := Relayed(old(gs.conns), gs.connLookup, room.value.members, None,
                Queued(None, OrdGameStart(VsGame(room.value, order).value)));
              started.Some? && gs.conns == Deliver(started.value, who, Queued(None, AckGameStart(StatusOk))))
  {
    var room := CurrentRoom(gs, who);
    if room.None? {
      gs.Write(who, AckGameStart(StatusErr));
      return Bailed;
    }
    var game := GenerateVsGame(room.value, order);
    if game.None? {
      return Panicked;
    }
    out := Announce(gs, room.value.members, None, Queued(None, OrdGameStart(game.value)));
    if out == Done {
      gs.Write(who, AckGameStart(StatusOk));
    }
  }

  /** `handle_start_game`. Single mode: the game, then `ACK_GAMESTART(OK)`,
      to the player alone. VS mode: the game to every player of the room,
      the starter included, then `ACK_GAMESTART(OK)` to the starter; a
      player in no room gets `ACK_GAMESTART(Err)`. Any other mode is an
      error and sends nothing. */
  method HandleStartGame(gs: GameServer, who: nat, order: seq<int>) returns (out: Outcome)
    requires gs.Valid() && who < |gs.conns| && |order| == 18
    modifies gs`conns
    ensures gs.Valid()
    ensures var p := old(gs.conns[who]); var room := old(CurrentRoom(gs, who));
      match p.mode
      case Single =>
        out == Done && gs.conns == DeliverAll(old(gs.conns), who,
          [Queued(None, OrdGameStart(SingleGame(p.cid, order))), Queued(None, AckGameStart(StatusOk))])
      case VS =>
        if room.None? then out == Bailed && gs.conns == Deliver(old(gs.conns), who, Queued(None, AckGameStart(StatusErr)))
        else if VsGame(room.value, order).None? then out == Panicked && gs.conns == old(gs.conns)
        else
          out != Bailed && (out == Done <==> TargetsConnected(gs.connLookup, room.value.members, None))
          && (out == Done ==>
                var started := Relayed(old(gs.conns), gs.connLookup, room.value.members, None,
                  Queued(None, OrdGameStart(VsGame(room.value, order).value)));
                started.Some? && gs.conns == Deliver(started.value, who, Queued(None, AckGameStart(StatusOk))))
      case _ => out == Bailed && gs.conns == old(gs.conns)
  {
    var p := gs.conns[who];
    if p.mode == Single {
      ghost var conns0 := gs.conns;
      gs.Write(who, OrdGameStart(SingleGame(p.cid, order)));
      gs.Write(who, AckGameStart(StatusOk));
      assert conns0[who].outbox + [Queued(None, OrdGameStart(SingleGame(p.cid, order)))] + [Queued(None, AckGameStart(StatusOk))]
        == conns0[who].outbox + [Queued(None, OrdGameStart(SingleGame(p.cid, order))), Queued(None, AckGameStart(StatusOk))];
      out := Done;
    } else if p.mode == VS {
      out := StartVsGame(gs, who, order);
    } else {
      out := Bailed;
    }
  }

  /** The carry items of single mode: four environment items and four power
      gauge items, a hundred of each. */
  function SingleModeCarryItems(): (r: seq<CountedItem>)
    ensures |r| == 8 && forall i :: 0 <= i < 8 ==> CountOf(r[i]) == 100
  {
    var env, gauge := CarryItemEnvironment, CarryItemPowerGauge;
    [NewCounted(NewItem(env, 1), 100), NewCounted(NewItem(env, 3), 100),
     NewCounted(NewItem(env, 5), 100), NewCounted(NewItem(env, 7), 100),
     NewCounted(NewItem(gauge, 1), 100), NewCounted(NewItem(gauge, 2), 100),
     NewCounted(NewItem(gauge, 3), 100), NewCounted(NewItem(gauge, 4), 100)]
  }

  /** `handle_init_single_mode`: the eight carry items of single mode. */
  method HandleInitSingleMode(gs: GameServer, who: nat)
    requires gs.Valid() && who < |gs.conns|
    modifies gs`conns
    ensures gs.Valid()
    ensures gs.conns == Deliver(old(gs.conns), who, Queued(None, SingleModeItems(8, SingleModeCarryItems())))
  {
    gs.Write(who, SingleModeItems(8, SingleModeCarryItems()));
  }
}
