/** The lobby and room handlers of the game server (src/gs2/lobby_mgmt.rs):
    counting and describing lobbies, entering and leaving a lobby, making,
    listing and entering rooms, and the member lists. Each handler keeps
    the server's invariant and states the state it leaves behind. */
module LobbyMgmt {
  import opened Wrappers
  import opened Strings
  import opened Packets
  import opened Rooms
  import opened GameServers

  // ---------------------------------------------------------------------
  // How lobby changes keep the server's invariant

  /** A well-formed lobby put in place of another keeps the lobbies well
      formed. */
  lemma WithLobbyWellFormed(ls: Lobbies, mode: Mode, num: int, lobby: Lobby)
    requires LobbiesWellFormed(ls) && LobbyAt(ls, mode, num).Some? && LobbyWellFormed(lobby)
    ensures LobbiesWellFormed(WithLobby(ls, mode, num, lobby))
  {
  }

  /** Every lobby of well-formed lobbies is well formed. */
  lemma LobbyAtWellFormed(ls: Lobbies, mode: Mode, num: int)
    requires LobbiesWellFormed(ls) && LobbyAt(ls, mode, num).Some?
    ensures LobbyWellFormed(LobbyAt(ls, mode, num).value)
  {
  }

  /** Replacing a lobby by one with the same members keeps the member
      lists in step with the players. */
  lemma SameMembersValid(roster: seq<Seat>, lookup: map<i32, int>, ls: Lobbies, mode: Mode, num: int, lobby: Lobby)
    requires LookupValid(roster, lookup) && MembershipValid(roster, lookup, ls)
    requires LobbyAt(ls, mode, num).Some? && lobby.members == LobbyAt(ls, mode, num).value.members
    ensures MembershipValid(roster, lookup, WithLobby(ls, mode, num, lobby))
  {
    var ls' := WithLobby(ls, mode, num, lobby);
    forall m, n ensures LobbyAt(ls', m, n).Some? <==> LobbyAt(ls, m, n).Some?
      ensures LobbyAt(ls', m, n).Some? ==> LobbyAt(ls', m, n).value.members == LobbyAt(ls, m, n).value.members
    {
    }
  }

  /** A player in no lobby is in no lobby's member list. */
  lemma NotInLobbyNotMember(roster: seq<Seat>, lookup: map<i32, int>, ls: Lobbies, who: nat, mode: Mode, num: int)
    requires LookupValid(roster, lookup) && MembershipValid(roster, lookup, ls)
    requires who < |roster| && roster[who].lobby < 0 && LobbyAt(ls, mode, num).Some?
    ensures roster[who].cid !in LobbyAt(ls, mode, num).value.members
  {
  }

  /** A player in no lobby joining lobby `num` of their mode, which has
      room for them, keeps the invariant. */
  lemma JoinValid(roster: seq<Seat>, lookup: map<i32, int>, ls: Lobbies, who: nat, num: i8)
    requires LookupValid(roster, lookup) && LobbiesWellFormed(ls) && MembershipValid(roster, lookup, ls)
    requires who < |roster| && roster[who].lobby < 0
    requires LobbyAt(ls, roster[who].mode, num).Some?
    requires |LobbyAt(ls, roster[who].mode, num).value.members| < LobbyAt(ls, roster[who].mode, num).value.maxMembers
    ensures var s := roster[who]; var lobby := LobbyAt(ls, s.mode, num).value;
      var roster', ls' := roster[who := s.(lobby := num)], WithLobby(ls, s.mode, num, lobby.(members := lobby.members + [s.cid]));
      LookupValid(roster', lookup) && LobbiesWellFormed(ls') && MembershipValid(roster', lookup, ls')
  {
    var s := roster[who];
    var lobby := LobbyAt(ls, s.mode, num).value;
    var joined := lobby.(members := lobby.members + [s.cid]);
    var roster', ls' := roster[who := s.(lobby := num)], WithLobby(ls, s.mode, num, joined);
    NotInLobbyNotMember(roster, lookup, ls, who, s.mode, num);
    LobbyAtWellFormed(ls, s.mode, num);
    assert Distinct(joined.members) by {
      forall i, j | 0 <= i < j < |joined.members| ensures joined.members[i] != joined.members[j] {
        if j < |lobby.members| {
          assert joined.members[i] == lobby.members[i] && joined.members[j] == lobby.members[j];
        } else {
          assert joined.members[i] == lobby.members[i];
        }
      }
    }
    WithLobbyWellFormed(ls, s.mode, num, joined);
    forall i | 0 <= i < |roster'| && roster'[i].lobby >= 0
      ensures LobbyAt(ls', roster'[i].mode, roster'[i].lobby).Some?
      ensures roster'[i].cid in LobbyAt(ls', roster'[i].mode, roster'[i].lobby).value.members
    {
      if i != who {
        assert roster'[i] == roster[i];
        if roster[i].mode == s.mode && roster[i].lobby == num {
          assert roster[i].cid in lobby.members;
        }
      }
    }
    forall m, n, c | LobbyAt(ls', m, n).Some? && c in LobbyAt(ls', m, n).value.members
      ensures c in lookup && roster'[lookup[c]].mode == m && roster'[lookup[c]].lobby == n
    {
      if m == s.mode && n == num {
        if c != s.cid {
          assert c in lobby.members;
          MemberIsConnected(roster, lookup, ls, m, n, c);
        }
      } else {
        MemberIsConnected(roster, lookup, ls, m, n, c);
        assert lookup[c] != who;
      }
    }
  }

  /** The index of the first `c` in `cids` (`iter().position`). */
  function Position(cids: seq<i32>, c: i32): (k: nat)
    requires c in cids
    ensures k < |cids| && cids[k] == c && forall i :: 0 <= i < k ==> cids[i] != c
  {
    if cids[0] == c then 0 else 1 + Position(cids[1..], c)
  }

  /** `Vec::remove`: the list without its `k`-th element. */
  function RemoveAt(cids: seq<i32>, k: nat): (r: seq<i32>)
    requires k < |cids|
    ensures |r| == |cids| - 1
  {
    cids[..k] + cids[k + 1..]
  }

  /** Removing a member of a list without duplicates takes exactly that
      member out and keeps the others. */
  lemma RemoveMember(cids: seq<i32>, c: i32)
    requires Distinct(cids) && c in cids
    ensures var r := RemoveAt(cids, Position(cids, c));
      Distinct(r) && forall x :: x in r <==> x in cids && x != c
  {
    var k := Position(cids, c);
    var r := RemoveAt(cids, k);
    assert forall i :: 0 <= i < |r| ==> r[i] == cids[if i < k then i else i + 1];
    forall x | x in cids && x != c ensures x in r {
      var j :| 0 <= j < |cids| && cids[j] == x;
      assert r[if j < k then j else j - 1] == x;
    }
  }

  /** The lobby a member leaves, without them. */
  function Left(lobby: Lobby, cid: i32): Lobby
    requires cid in lobby.members
  {
    lobby.(members := RemoveAt(lobby.members, Position(lobby.members, cid)))
  }

  /** A lobby member leaving the lobby keeps the invariant. */
  lemma LeaveValid(roster: seq<Seat>, lookup: map<i32, int>, ls: Lobbies, who: nat)
    requires LookupValid(roster, lookup) && LobbiesWellFormed(ls) && MembershipValid(roster, lookup, ls)
    requires who < |roster| && roster[who].lobby >= 0
    ensures var s := roster[who];
      LobbyAt(ls, s.mode, s.lobby).Some? && s.cid in LobbyAt(ls, s.mode, s.lobby).value.members
    ensures var s := roster[who];
      var roster' := roster[who := s.(lobby := -1)];
      var ls' := WithLobby(ls, s.mode, s.lobby, Left(LobbyAt(ls, s.mode, s.lobby).value, s.cid));
      LookupValid(roster', lookup) && LobbiesWellFormed(ls') && MembershipValid(roster', lookup, ls')
  {
    var s := roster[who];
    var lobby := LobbyAt(ls, s.mode, s.lobby).value;
    LobbyAtWellFormed(ls, s.mode, s.lobby);
    RemoveMember(lobby.members, s.cid);
    var left := Left(lobby, s.cid);
    WithLobbyWellFormed(ls, s.mode, s.lobby, left);
    LeaveMembership(roster, lookup, ls, who, left);
  }

  /** The member lists after a member leaves: lobby `s.lobby` loses them. */
  lemma LeaveMembership(roster: seq<Seat>, lookup: map<i32, int>, ls: Lobbies, who: nat, left: Lobby)
    requires LookupValid(roster, lookup) && MembershipValid(roster, lookup, ls)
    requires who < |roster| && LobbyAt(ls, roster[who].mode, roster[who].lobby).Some?
    requires forall x :: x in left.members <==>
      x in LobbyAt(ls, roster[who].mode, roster[who].lobby).value.members && x != roster[who].cid
    ensures var s := roster[who];
      var roster', ls' := roster[who := s.(lobby := -1)], WithLobby(ls, s.mode, s.lobby, left);
      LookupValid(roster', lookup) && MembershipValid(roster', lookup, ls')
  {
    var s := roster[who];
    var roster', ls' := roster[who := s.(lobby := -1)], WithLobby(ls, s.mode, s.lobby, left);
    forall i | 0 <= i < |roster'| && roster'[i].lobby >= 0
      ensures LobbyAt(ls', roster'[i].mode, roster'[i].lobby).Some?
      ensures roster'[i].cid in LobbyAt(ls', roster'[i].mode, roster'[i].lobby).value.members
    {
      assert roster'[i] == roster[i] && i != who;
    }
    forall m, n, c | LobbyAt(ls', m, n).Some? && c in LobbyAt(ls', m, n).value.members
      ensures c in lookup && roster'[lookup[c]].mode == m && roster'[lookup[c]].lobby == n
    {
      MemberIsConnected(roster, lookup, ls, m, n, c);
      if m == s.mode && n == s.lobby {
        assert c != s.cid;
      } else {
        assert lookup[c] != who;
      }
    }
  }

  /** In a list without duplicates, each cid but `skip` is hit exactly
      once if it is in the list. */
  lemma HitsDistinct(cids: seq<i32>, skip: Option<i32>, d: i32)
    requires Distinct(cids)
    ensures Hits(cids, skip, d) == if d in cids && skip != Some(d) then 1 else 0
  {
    if d in cids && skip != Some(d) {
      var k := Position(cids, d);
      var a, b := cids[..k], cids[k + 1..];
      assert cids == a + [d] + b;
      assert d !in a;
      assert d !in b by {
        forall i | 0 <= i < |b| ensures b[i] != d {
          assert b[i] == cids[k + 1 + i];
        }
      }
      assert multiset(cids) == multiset(a) + multiset{d} + multiset(b);
    }
  }

  // ---------------------------------------------------------------------
  // Replies built from lists

  /** A player's profile as listed in a room (`SEND_ULIST`) or in a lobby
      (`SEND_ULIST_L`). */
  function ListPacket(inRoom: bool, u: UList): (p: Packet)
    ensures p.SendUList? || p.SendUListL?
    ensures p.SendUList? <==> inRoom
    ensures p.ulist == u
  {
    if inRoom then SendUList(u) else SendUListL(u)
  }

  /** The profiles of the players with cids `cids`, in order, each with pid
      `pid`, as far as the first cid that is not connected; and whether all
      of them were. */
  function Profiles(conns: seq<Player>, lookup: map<i32, int>, cids: seq<i32>, pid: i16, inRoom: bool)
    : (r: (seq<Queued>, bool))
    ensures r.1 <==> forall k :: 0 <= k < |cids| ==> cids[k] in lookup && 0 <= lookup[cids[k]] < |conns|
    ensures r.1 ==> |r.0| == |cids| && forall k :: 0 <= k < |cids| ==>
      r.0[k] == Queued(Some(pid), ListPacket(inRoom, MakeUList(conns[lookup[cids[k]]])))
  {
    if cids == [] then ([], true)
    else
      var n := |cids| - 1;
      var (qs, ok) := Profiles(conns, lookup, cids[..n], pid, inRoom);
      var c := cids[n];
      assert forall k :: 0 <= k < n ==> cids[..n][k] == cids[k];
      if !ok then (qs, false)
      else if c in lookup && 0 <= lookup[c] < |conns| then
        (qs + [Queued(Some(pid), ListPacket(inRoom, MakeUList(conns[lookup[c]])))], true)
      else (qs, false)
  }

  /** The index of the first room whose description cannot be built (see
      `StatFits`), or the number of rooms. */
  function FirstUnfit(rooms: seq<Room>): (k: nat)
    ensures k <= |rooms| && (forall i :: 0 <= i < k ==> StatFits(rooms[i]))
    ensures k < |rooms| ==> !StatFits(rooms[k])
  {
    if rooms == [] || !StatFits(rooms[0]) then 0 else 1 + FirstUnfit(rooms[1..])
  }

  /** The `PKT_19` entries describing `rooms`, each with pid `pid`. */
  function Entries(mode: Mode, lobby: i8, rooms: seq<Room>, pid: i16): (qs: seq<Queued>)
    requires forall i :: 0 <= i < |rooms| ==> StatFits(rooms[i]) && NamesFit(rooms[i])
    ensures |qs| == |rooms|
    ensures forall i :: 0 <= i < |rooms| ==> qs[i] == Queued(Some(pid), RoomEntry(RoomPacket(mode, lobby, rooms[i])))
  {
    if rooms == [] then []
    else
      var n := |rooms| - 1;
      assert forall i :: 0 <= i < n ==> rooms[..n][i] == rooms[i];
      Entries(mode, lobby, rooms[..n], pid) + [Queued(Some(pid), RoomEntry(RoomPacket(mode, lobby, rooms[n])))]
  }

  /** Why `_enter_room_internal` refuses a player. */
  datatype EnterRoomError = AlreadyInRoom | RoomNotFound | RoomIsFull | WrongPassword

  /** The checks of `_enter_room_internal`, in order: already in a room (a
      room number above 0, so a player in room 0 passes), no such room in
      the player's lobby, a password that does not match one the room has,
      and a full room. The answer is the room entered. */
  function EnterRoomCheck(p: Player, ls: Lobbies, roomNum: i8, password: seq<u16>): (r: Result<Room, EnterRoomError>)
    ensures r.Ok? <==> (p.curRoom <= 0 && RoomAt(ls, p.mode, p.curLobby, roomNum).Some?
      && (RoomAt(ls, p.mode, p.curLobby, roomNum).value.password.Some? ==>
            password == RoomAt(ls, p.mode, p.curLobby, roomNum).value.password.value)
      && |RoomAt(ls, p.mode, p.curLobby, roomNum).value.members| < RoomAt(ls, p.mode, p.curLobby, roomNum).value.maxMembers)
    ensures r.Ok? ==> r == Ok(RoomAt(ls, p.mode, p.curLobby, roomNum).value)
    ensures r == Err(WrongPassword) <==> (p.curRoom <= 0 && RoomAt(ls, p.mode, p.curLobby, roomNum).Some?
      && RoomAt(ls, p.mode, p.curLobby, roomNum).value.password.Some?
      && password != RoomAt(ls, p.mode, p.curLobby, roomNum).value.password.value)
  {
    if p.curRoom > 0 then Err(AlreadyInRoom)
    else match RoomAt(ls, p.mode, p.curLobby, roomNum)
      case None => Err(RoomNotFound)
      case Some(room) =>
        if room.password.Some? && password != room.password.value then Err(WrongPassword)
        else if |room.members| >= room.maxMembers then Err(RoomIsFull)
        else Ok(room)
  }

  /** The code `handle_enter_room` answers a refusal with. */
  function RefusalCode(e: EnterRoomError): (c: i8)
    ensures c < 0
    ensures c == -3 <==> e == WrongPassword
  {
    if e == WrongPassword then -3 else -1
  }

  /** Once a prefix of the cids has one that is not connected, the whole
      listing stops there. */
  lemma {:induction false} ProfilesStop(conns: seq<Player>, lookup: map<i32, int>, cids: seq<i32>, i: nat, pid: i16, inRoom: bool)
    requires i <= |cids| && !Profiles(conns, lookup, cids[..i], pid, inRoom).1
    ensures Profiles(conns, lookup, cids, pid, inRoom) == Profiles(conns, lookup, cids[..i], pid, inRoom)
  {
    if i == |cids| {
      assert cids[..i] == cids;
    } else {
      var n := |cids| - 1;
      assert cids[..n][..i] == cids[..i];
      ProfilesStop(conns, lookup, cids[..n], i, pid, inRoom);
    }
  }

  /** One more room described is one more entry written. */
  lemma EntriesStep(conns: seq<Player>, who: nat, mode: Mode, lobby: i8, rooms: seq<Room>, i: nat, pid: i16)
    requires who < |conns| && i < |rooms| && forall j :: 0 <= j <= i ==> StatFits(rooms[j]) && NamesFit(rooms[j])
    ensures Deliver(DeliverAll(conns, who, Entries(mode, lobby, rooms[..i], pid)), who,
                    Queued(Some(pid), RoomEntry(RoomPacket(mode, lobby, rooms[i]))))
         == DeliverAll(conns, who, Entries(mode, lobby, rooms[..i + 1], pid))
  {
    assert rooms[..i + 1][..i] == rooms[..i];
    DeliverAfterAll(conns, who, Entries(mode, lobby, rooms[..i], pid), Queued(Some(pid), RoomEntry(RoomPacket(mode, lobby, rooms[i]))));
  }

  /** A room made from a request as the wire delivers it, under a number
      from `pick_free_room_num`, is well formed. */
  lemma NewRoomWellFormed(n: i8, data: Packet19, members: seq<i32>)
    requires RequestShaped(data) && 0 <= n
    ensures RoomWellFormed(NewRoom(n, data).(members := members))
  {
  }

  /** Adding a well-formed room under an unused number keeps the lobbies
      well formed and the member lists as they were. */
  lemma AddRoomValid(roster: seq<Seat>, lookup: map<i32, int>, ls: Lobbies, mode: Mode, num: int, room: Room)
    requires LookupValid(roster, lookup) && LobbiesWellFormed(ls) && MembershipValid(roster, lookup, ls)
    requires LobbyAt(ls, mode, num).Some? && RoomWellFormed(room) && !Used(LobbyAt(ls, mode, num).value.rooms, room.roomNum)
    ensures var lobby := LobbyAt(ls, mode, num).value;
      var ls' := WithLobby(ls, mode, num, lobby.(rooms := InsertRoom(lobby.rooms, room)));
      LobbiesWellFormed(ls') && MembershipValid(roster, lookup, ls')
  {
    var lobby := LobbyAt(ls, mode, num).value;
    LobbyAtWellFormed(ls, mode, num);
    InsertRoomSorted(lobby.rooms, room);
    InsertRoomContents(lobby.rooms, room);
    var rooms' := InsertRoom(lobby.rooms, room);
    var k := InsertionPoint(lobby.rooms, room.roomNum);
    forall i | 0 <= i < |rooms'| ensures RoomWellFormed(rooms'[i]) {
      if i < k {
        assert rooms'[i] == lobby.rooms[i];
      } else if i > k {
        assert rooms'[i] == lobby.rooms[i - 1];
      }
    }
    WithLobbyWellFormed(ls, mode, num, lobby.(rooms := rooms'));
    SameMembersValid(roster, lookup, ls, mode, num, lobby.(rooms := rooms'));
  }

  /** The room found by number in well-formed lobbies is well formed. */
  lemma RoomAtWellFormed(ls: Lobbies, mode: Mode, lobbyNum: int, roomNum: int)
    requires LobbiesWellFormed(ls) && RoomAt(ls, mode, lobbyNum, roomNum).Some?
    ensures RoomWellFormed(RoomAt(ls, mode, lobbyNum, roomNum).value)
  {
    LobbyAtWellFormed(ls, mode, lobbyNum);
  }

  /** Putting a well-formed room in place of the room with its number
      keeps the invariant, and the room is then found under that number. */
  lemma WithRoomValid(roster: seq<Seat>, lookup: map<i32, int>, ls: Lobbies, mode: Mode, lobbyNum: int, roomNum: int, room: Room)
    requires LookupValid(roster, lookup) && LobbiesWellFormed(ls) && MembershipValid(roster, lookup, ls)
    requires RoomAt(ls, mode, lobbyNum, roomNum).Some? && room.roomNum == roomNum && RoomWellFormed(room)
    ensures var ls' := WithRoom(ls, mode, lobbyNum, roomNum, room);
      LobbiesWellFormed(ls') && MembershipValid(roster, lookup, ls') && RoomAt(ls', mode, lobbyNum, roomNum) == Some(room)
  {
    var lobby := LobbyAt(ls, mode, lobbyNum).value;
    var k := RoomIndex(lobby, roomNum).value;
    var lobby' := lobby.(rooms := lobby.rooms[k := room]);
    LobbyAtWellFormed(ls, mode, lobbyNum);
    assert LobbyWellFormed(lobby') by {
      forall i, j | 0 <= i < j < |lobby'.rooms| ensures lobby'.rooms[i].roomNum < lobby'.rooms[j].roomNum {
        assert lobby'.rooms[i].roomNum == lobby.rooms[i].roomNum;
        assert lobby'.rooms[j].roomNum == lobby.rooms[j].roomNum;
      }
    }
    WithLobbyWellFormed(ls, mode, lobbyNum, lobby');
    SameMembersValid(roster, lookup, ls, mode, lobbyNum, lobby');
    assert Used(lobby'.rooms, roomNum) by {
      assert lobby'.rooms[k].roomNum == roomNum;
    }
  }

  // ---------------------------------------------------------------------
  // Handlers

  /** Writing nothing changes nothing. */
  lemma NothingDelivered(conns: seq<Player>, who: nat)
    requires who < |conns|
    ensures DeliverAll(conns, who, []) == conns
  {
    assert conns[who].outbox + [] == conns[who].outbox;
  }

  /** One more cid listed and connected: one more profile written. */
  lemma ProfilesStep(conns: seq<Player>, lookup: map<i32, int>, cids: seq<i32>, i: nat, who: nat, pid: i16, inRoom: bool)
    requires i < |cids| && who < |conns| && Profiles(conns, lookup, cids[..i], pid, inRoom).1
    requires cids[i] in lookup && 0 <= lookup[cids[i]] < |conns|
    ensures Profiles(conns, lookup, cids[..i + 1], pid, inRoom).1
    ensures Deliver(DeliverAll(conns, who, Profiles(conns, lookup, cids[..i], pid, inRoom).0), who,
                    Queued(Some(pid), ListPacket(inRoom, MakeUList(conns[lookup[cids[i]]]))))
         == DeliverAll(conns, who, Profiles(conns, lookup, cids[..i + 1], pid, inRoom).0)
  {
    assert cids[..i + 1][..i] == cids[..i];
    DeliverAfterAll(conns, who, Profiles(conns, lookup, cids[..i], pid, inRoom).0,
                    Queued(Some(pid), ListPacket(inRoom, MakeUList(conns[lookup[cids[i]]]))));
  }

  /** One more cid listed and not connected: the listing ends there. */
  lemma ProfilesMissing(conns: seq<Player>, lookup: map<i32, int>, cids: seq<i32>, i: nat, pid: i16, inRoom: bool)
    requires i < |cids| && Profiles(conns, lookup, cids[..i], pid, inRoom).1
    requires !(cids[i] in lookup && 0 <= lookup[cids[i]] < |conns|)
    ensures Profiles(conns, lookup, cids, pid, inRoom) == (Profiles(conns, lookup, cids[..i], pid, inRoom).0, false)
  {
    assert cids[..i + 1][..i] == cids[..i];
    ProfilesStop(conns, lookup, cids, i + 1, pid, inRoom);
  }

  /** The listing loop of `handle_req_lobby_members` and
      `handle_get_room_members`: the profile of each player of `cids` to
      player `who`, with the request's pid; `false` where a cid is not
      connected and the source's `unwrap` panics. */
  method SendProfiles(gs: GameServer, who: nat, cids: seq<i32>, pid: i16, inRoom: bool) returns (ok: bool)
    requires who < |gs.conns|
    modifies gs`conns
    ensures ok == Profiles(old(gs.conns), gs.connLookup, cids, pid, inRoom).1
    ensures gs.conns == DeliverAll(old(gs.conns), who, Profiles(old(gs.conns), gs.connLookup, cids, pid, inRoom).0)
  {
    // only outboxes change in the loop, so profiles are read from the start
    var conns0, lookup := gs.conns, gs.connLookup;
    NothingDelivered(conns0, who);
    var i := 0;
    while i < |cids|
      invariant 0 <= i <= |cids| && |gs.conns| == |conns0| && gs.connLookup == lookup
      invariant Profiles(conns0, lookup, cids[..i], pid, inRoom).1
      invariant gs.conns == DeliverAll(conns0, who, Profiles(conns0, lookup, cids[..i], pid, inRoom).0)
    {
      var c := cids[i];
      if c !in lookup || !(0 <= lookup[c] < |conns0|) {
        ProfilesMissing(conns0, lookup, cids, i, pid, inRoom);
        return false;
      }
      ProfilesStep(conns0, lookup, cids, i, who, pid, inRoom);
      gs.WriteWithPid(who, ListPacket(inRoom, MakeUList(conns0[lookup[c]])), pid);
      i := i + 1;
    }
    assert cids[..i] == cids;
    ok := true;
  }

  /** `handle_get_lobby_num`: the number of lobbies of the player's mode,
      which must fit an `i8`; nothing for a mode without lobbies. */
  method HandleGetLobbyNum(gs: GameServer, who: nat) returns (out: Outcome)
    requires gs.Valid() && who < |gs.conns|
    modifies gs`conns
    ensures gs.Valid()
    ensures match LobbyList(gs.lobbies, old(gs.conns[who].mode))
      case None => out == Done && gs.conns == old(gs.conns)
      case Some(list) =>
        if |list| > 127 then out == Bailed && gs.conns == old(gs.conns)
        else out == Done && gs.conns == Deliver(old(gs.conns), who, Queued(None, SendLobbyNum(|list|)))
  {
    var list := LobbyList(gs.lobbies, gs.conns[who].mode);
    if list.Some? {
      if |list.value| > 127 {
        return Bailed;
      }
      gs.Write(who, SendLobbyNum(|list.value|));
    }
    out := Done;
  }

  /** `handle_get_lobby_data`: the description of lobby `num` of `mode`,
      with the request's pid; nothing when there is no such lobby. */
  method HandleGetLobbyData(gs: GameServer, pid: i16, who: nat, num: i8, mode: Mode)
    requires gs.Valid() && who < |gs.conns|
    modifies gs`conns
    ensures gs.Valid()
    ensures LobbyAt(gs.lobbies, mode, num).None? ==> gs.conns == old(gs.conns)
    ensures LobbyAt(gs.lobbies, mode, num).Some? ==>
      (LobbyAtWellFormed(gs.lobbies, mode, num);
       gs.conns == Deliver(old(gs.conns), who, Queued(Some(pid), SendLobbyData(MakeLobbyData(LobbyAt(gs.lobbies, mode, num).value, mode, num)))))
  {
    var lobby := LobbyAt(gs.lobbies, mode, num);
    if lobby.Some? {
      LobbyAtWellFormed(gs.lobbies, mode, num);
      gs.WriteWithPid(who, SendLobbyData(MakeLobbyData(lobby.value, mode, num)), pid);
    }
  }

  /** `handle_enter_lobby`: a player in no lobby joins lobby `num` of their
      mode; a full lobby answers -1. The joiner's profile then goes to
      every other member. */
  method HandleEnterLobby(gs: GameServer, who: nat, num: i8) returns (out: Outcome)
    requires gs.Valid() && who < |gs.conns|
    modifies gs`conns, gs`lobbies
    ensures gs.Valid()
    ensures var p := old(gs.conns[who]); var lobby := LobbyAt(old(gs.lobbies), p.mode, num);
      if p.curLobby >= 0 || lobby.None? then
        out == Bailed && gs.conns == old(gs.conns) && gs.lobbies == old(gs.lobbies)
      else if |lobby.value.members| >= lobby.value.maxMembers then
        out == Done && gs.lobbies == old(gs.lobbies)
        && gs.conns == Deliver(old(gs.conns), who, Queued(None, AckEnterLobby(-1)))
      else
        var joined := p.(curLobby := num);
        var members := lobby.value.members + [p.cid];
        out == Done
        && gs.lobbies == WithLobby(old(gs.lobbies), p.mode, num, lobby.value.(members := members))
        && Relayed(Deliver(old(gs.conns)[who := joined], who, Queued(None, AckEnterLobby(num))), gs.connLookup,
             members, Some(p.cid), Queued(None, SendUListL(MakeUList(joined)))) == Some(gs.conns)
  {
    var p := gs.conns[who];
    if p.curLobby >= 0 {
      return Bailed;
    }
    var lobby := LobbyAt(gs.lobbies, p.mode, num);
    if lobby.None? {
      return Bailed;
    }
    var l := lobby.value;
    if |l.members| >= l.maxMembers {
      gs.Write(who, AckEnterLobby(-1));
      return Done;
    }
    var members := l.members + [p.cid];
    var joined := p.(curLobby := num);
    JoinValid(Roster(gs.conns), gs.connLookup, gs.lobbies, who, num);
    MembersConnected(Roster(gs.conns), gs.connLookup, gs.lobbies, p.mode, num);
    RosterUpdate(gs.conns, who, joined);
    gs.lobbies := WithLobby(gs.lobbies, p.mode, num, l.(members := members));
    gs.conns := gs.conns[who := joined];
    gs.Write(who, AckEnterLobby(num));
    out := Announce(gs, members, Some(p.cid), Queued(None, SendUListL(MakeUList(joined))));
  }

  /** `eject_from_lobby`: the player leaves the lobby they are in (they
      must be in one), and every member left gets the profile of the
      player, now in no lobby. Rooms are not touched. */
  method EjectFromLobby(gs: GameServer, who: nat) returns (out: Outcome)
    requires gs.Valid() && who < |gs.conns|
    modifies gs`conns, gs`lobbies
    ensures gs.Valid()
    ensures out == Bailed <==> old(gs.conns[who].curLobby) < 0
    ensures var p := old(gs.conns[who]); var lobby := LobbyAt(old(gs.lobbies), p.mode, p.curLobby);
      if lobby.None? then
        out == Bailed && gs.conns == old(gs.conns) && gs.lobbies == old(gs.lobbies)
      else
        var left := p.(curLobby := -1);
        p.cid in lobby.value.members && out == Done
        && gs.lobbies == WithLobby(old(gs.lobbies), p.mode, p.curLobby, Left(lobby.value, p.cid))
        && Relayed(old(gs.conns)[who := left], gs.connLookup, Left(lobby.value, p.cid).members, None,
             Queued(None, SendUListL(MakeUList(left)))) == Some(gs.conns)
  {
    var p := gs.conns[who];
    var lobby := LobbyAt(gs.lobbies, p.mode, p.curLobby);
    if lobby.None? {
      return Bailed;
    }
    var l := lobby.value;
    LeaveValid(Roster(gs.conns), gs.connLookup, gs.lobbies, who);
    var pos := Position(l.members, p.cid);
    var members := RemoveAt(l.members, pos);
    var left := p.(curLobby := -1);
    RosterUpdate(gs.conns, who, left);
    gs.lobbies := WithLobby(gs.lobbies, p.mode, p.curLobby, l.(members := members));
    gs.conns := gs.conns[who := left];
    MembersConnected(Roster(gs.conns), gs.connLookup, gs.lobbies, p.mode, p.curLobby);
    out := Announce(gs, members, None, Queued(None, SendUListL(MakeUList(left))));
  }

  /** `handle_req_lobby_members`: the profile of every member of lobby
      `num` of `mode`, with the request's pid. */
  method HandleReqLobbyMembers(gs: GameServer, pid: i16, who: nat, num: i8, mode: Mode) returns (out: Outcome)
    requires gs.Valid() && who < |gs.conns|
    modifies gs`conns
    ensures gs.Valid()
    ensures LobbyAt(gs.lobbies, mode, num).None? ==> out == Bailed && gs.conns == old(gs.conns)
    ensures LobbyAt(gs.lobbies, mode, num).Some? ==>
      var profiles := Profiles(old(gs.conns), gs.connLookup, LobbyAt(gs.lobbies, mode, num).value.members, pid, false);
      out == Done && profiles.1 && gs.conns == DeliverAll(old(gs.conns), who, profiles.0)
  {
    var lobby := LobbyAt(gs.lobbies, mode, num);
    if lobby.None? {
      return Bailed;
    }
    MembersConnected(Roster(gs.conns), gs.connLookup, gs.lobbies, mode, num);
    var ok := SendProfiles(gs, who, lobby.value.members, pid, false);
    out := if ok then Done else Panicked;
  }

  /** `handle_get_room_members`: the profile of every member of the room,
      then `ACK_ULIST_R(OK)`, all with the request's pid; `ACK_ULIST_R(Err)`
      when there is no such room. A member who is no longer connected makes
      the source panic. */
  method HandleGetRoomMembers(gs: GameServer, pid: i16, who: nat, mode: Mode, lobbyNum: i8, roomNum: i8) returns (out: Outcome)
    requires gs.Valid() && who < |gs.conns|
    modifies gs`conns
    ensures gs.Valid()
    ensures RoomAt(gs.lobbies, mode, lobbyNum, roomNum).None? ==>
      out == Done && gs.conns == Deliver(old(gs.conns), who, Queued(Some(pid), AckUListR(StatusErr)))
    ensures RoomAt(gs.lobbies, mode, lobbyNum, roomNum).Some? ==>
      var (qs, ok) := Profiles(old(gs.conns), gs.connLookup, RoomAt(gs.lobbies, mode, lobbyNum, roomNum).value.members, pid, true);
      if ok then out == Done && gs.conns == DeliverAll(old(gs.conns), who, qs + [Queued(Some(pid), AckUListR(StatusOk))])
      else out == Panicked && gs.conns == DeliverAll(old(gs.conns), who, qs)
  {
    var room := RoomAt(gs.lobbies, mode, lobbyNum, roomNum);
    if room.None? {
      gs.WriteWithPid(who, AckUListR(StatusErr), pid);
      return Done;
    }
    ghost var conns0 := gs.conns;
    var ok := SendProfiles(gs, who, room.value.members, pid, true);
    if !ok {
      return Panicked;
    }
    DeliverAfterAll(conns0, who, Profiles(conns0, gs.connLookup, room.value.members, pid, true).0, Queued(Some(pid), AckUListR(StatusOk)));
    gs.WriteWithPid(who, AckUListR(StatusOk), pid);
    out := Done;
  }

  /** A room inserted under an unused number is then found under that
      number, as it was inserted. */
  lemma MadeRoomFound(ls: Lobbies, mode: Mode, num: int, room: Room)
    requires LobbiesWellFormed(ls) && LobbyAt(ls, mode, num).Some?
    requires !Used(LobbyAt(ls, mode, num).value.rooms, room.roomNum)
    ensures var lobby := LobbyAt(ls, mode, num).value;
      RoomAt(WithLobby(ls, mode, num, lobby.(rooms := InsertRoom(lobby.rooms, room))), mode, num, room.roomNum) == Some(room)
  {
    var lobby := LobbyAt(ls, mode, num).value;
    LobbyAtWellFormed(ls, mode, num);
    InsertRoomSorted(lobby.rooms, room);
    InsertRoomContents(lobby.rooms, room);
    var lobby' := lobby.(rooms := InsertRoom(lobby.rooms, room));
    var k := InsertionPoint(lobby.rooms, room.roomNum);
    assert Used(lobby'.rooms, room.roomNum) by {
      assert lobby'.rooms[k].roomNum == room.roomNum;
    }
  }

  /** The state change of `handle_make_room`: room `n`, made from the
      request with the player as its only member, joins the player's lobby
      in number order, and the player is in it. */
  method AddRoom(gs: GameServer, who: nat, n: i8, data: Packet19)
    requires gs.Valid() && who < |gs.conns| && RequestShaped(data) && 0 <= n
    requires LobbyAt(gs.lobbies, gs.conns[who].mode, gs.conns[who].curLobby).Some?
    requires !Used(LobbyAt(gs.lobbies, gs.conns[who].mode, gs.conns[who].curLobby).value.rooms, n)
    modifies gs`conns, gs`lobbies
    ensures gs.Valid()
    ensures var p := old(gs.conns[who]); var lobby := LobbyAt(old(gs.lobbies), p.mode, p.curLobby).value;
      gs.lobbies == WithLobby(old(gs.lobbies), p.mode, p.curLobby,
        lobby.(rooms := InsertRoom(lobby.rooms, NewRoom(n, data).(members := [p.cid]))))
      && gs.conns == old(gs.conns)[who := p.(curRoom := n)]
  {
    var p := gs.conns[who];
    var l := LobbyAt(gs.lobbies, p.mode, p.curLobby).value;
    var room := NewRoom(n, data).(members := [p.cid]);
    NewRoomWellFormed(n, data, [p.cid]);
    AddRoomValid(Roster(gs.conns), gs.connLookup, gs.lobbies, p.mode, p.curLobby, room);
    SameSeat(gs.conns, who, p.(curRoom := n));
    gs.conns := gs.conns[who := p.(curRoom := n)];
    gs.lobbies := WithLobby(gs.lobbies, p.mode, p.curLobby, l.(rooms := InsertRoom(l.rooms, room)));
  }

  /** `handle_make_room`: a player in the lobby the request names, and in
      no room, makes a room under the smallest free number and is its first
      member; `ACK_MAKE_ROOM` answers with the number, or -1 when all 128
      are taken. */
  method HandleMakeRoom(gs: GameServer, pid: i16, who: nat, data: Packet19) returns (out: Outcome)
    requires gs.Valid() && who < |gs.conns| && RequestShaped(data)
    modifies gs`conns, gs`lobbies
    ensures gs.Valid()
    ensures var p := old(gs.conns[who]); var lobby := LobbyAt(old(gs.lobbies), data.mode, data.lobby);
      if lobby.None? || p.mode != data.mode || p.curLobby != data.lobby || p.curRoom >= 0 then
        out == Bailed && gs.conns == old(gs.conns) && gs.lobbies == old(gs.lobbies)
      else
        out == Done &&
        match FirstFreeFrom(lobby.value.rooms, 0)
        case None =>
          gs.lobbies == old(gs.lobbies) && gs.conns == Deliver(old(gs.conns), who, Queued(Some(pid), AckMakeRoom(-1)))
        case Some(n) =>
          gs.lobbies == WithLobby(old(gs.lobbies), data.mode, data.lobby,
            lobby.value.(rooms := InsertRoom(lobby.value.rooms, NewRoom(n, data).(members := [p.cid]))))
          && gs.conns == Deliver(old(gs.conns)[who := p.(curRoom := n)], who, Queued(Some(pid), AckMakeRoom(n)))
  {
    var lobby := LobbyAt(gs.lobbies, data.mode, data.lobby);
    if lobby.None? {
      return Bailed;
    }
    var p := gs.conns[who];
    if p.mode != data.mode || p.curLobby != data.lobby || p.curRoom >= 0 {
      return Bailed;
    }
    var l := lobby.value;
    LobbyAtWellFormed(gs.lobbies, data.mode, data.lobby);
    var n := PickFreeRoomNum(l);
    if n.None? {
      gs.WriteWithPid(who, AckMakeRoom(-1), pid);
      return Done;
    }
    AddRoom(gs, who, n.value, data);
    gs.WriteWithPid(who, AckMakeRoom(n.value), pid);
    out := Done;
  }

  /** `handle_get_rooms`: a `PKT_19` for each room of the player's lobby,
      in order, with the request's pid. The source panics on the first room
      whose description cannot be built, after sending those before it. */
  method HandleGetRooms(gs: GameServer, pid: i16, who: nat) returns (out: Outcome)
    requires gs.Valid() && who < |gs.conns|
    modifies gs`conns
    ensures gs.Valid()
    ensures var p := old(gs.conns[who]); var lobby := LobbyAt(gs.lobbies, p.mode, p.curLobby);
      if lobby.None? then out == Bailed && gs.conns == old(gs.conns)
      else
        var k := FirstUnfit(lobby.value.rooms);
        out != Bailed && (out == Done <==> k == |lobby.value.rooms|)
        && (LobbyAtWellFormed(gs.lobbies, p.mode, p.curLobby);
            gs.conns == DeliverAll(old(gs.conns), who, Entries(p.mode, p.curLobby, lobby.value.rooms[..k], pid)))
  {
    var p := gs.conns[who];
    var lobby := LobbyAt(gs.lobbies, p.mode, p.curLobby);
    if lobby.None? {
      return Bailed;
    }
    var rooms := lobby.value.rooms;
    LobbyAtWellFormed(gs.lobbies, p.mode, p.curLobby);
    ghost var conns0 := gs.conns;
    NothingDelivered(conns0, who);
    assert forall j :: 0 <= j < |rooms| ==> NamesFit(rooms[j]);
    var i := 0;
    while i < |rooms|
      invariant 0 <= i <= FirstUnfit(rooms) && |gs.conns| == |conns0|
      invariant gs.conns == DeliverAll(conns0, who, Entries(p.mode, p.curLobby, rooms[..i], pid))
    {
      if !StatFits(rooms[i]) {
        assert i == FirstUnfit(rooms);
        return Panicked;
      }
      EntriesStep(conns0, who, p.mode, p.curLobby, rooms, i, pid);
      gs.WriteWithPid(who, RoomEntry(RoomPacket(p.mode, p.curLobby, rooms[i])), pid);
      i := i + 1;
    }
    assert i == FirstUnfit(rooms);
    out := Done;
  }

  /** The state change of `_enter_room_internal`: the player is appended
      to the room's members and is in the room. */
  method JoinRoom(gs: GameServer, who: nat, roomNum: i8, room: Room)
    requires gs.Valid() && who < |gs.conns|
    requires RoomAt(gs.lobbies, gs.conns[who].mode, gs.conns[who].curLobby, roomNum) == Some(room)
    modifies gs`conns, gs`lobbies
    ensures gs.Valid()
    ensures var p := old(gs.conns[who]);
      gs.lobbies == WithRoom(old(gs.lobbies), p.mode, p.curLobby, roomNum, room.(members := room.members + [p.cid]))
      && gs.conns == old(gs.conns)[who := p.(curRoom := roomNum)]
  {
    var p := gs.conns[who];
    RoomAtWellFormed(gs.lobbies, p.mode, p.curLobby, roomNum);
    WithRoomValid(Roster(gs.conns), gs.connLookup, gs.lobbies, p.mode, p.curLobby, roomNum, room.(members := room.members + [p.cid]));
    SameSeat(gs.conns, who, p.(curRoom := roomNum));
    gs.lobbies := WithRoom(gs.lobbies, p.mode, p.curLobby, roomNum, room.(members := room.members + [p.cid]));
    gs.conns := gs.conns[who := p.(curRoom := roomNum)];
  }

  /** `handle_enter_room` with `_enter_room_internal`: a refused player
      gets an error description with code -3 for a wrong password and -1
      otherwise. An admitted player joins the room's members, gets the
      room's description, and every other member gets the player's
      profile. The source panics when the room's description cannot be
      built, after the player has joined, and when a member is no longer
      connected. */
  method HandleEnterRoom(gs: GameServer, pid: i16, who: nat, roomNum: i8, password: seq<u16>) returns (out: Outcome)
    requires gs.Valid() && who < |gs.conns|
    modifies gs`conns, gs`lobbies
    ensures gs.Valid() && out != Bailed
    ensures var p := old(gs.conns[who]);
      match EnterRoomCheck(p, old(gs.lobbies), roomNum, password)
      case Err(e) =>
        out == Done && gs.lobbies == old(gs.lobbies)
        && gs.conns == Deliver(old(gs.conns), who, Queued(Some(pid), AckEnterRoom(CreateError(p.mode, p.curLobby, RefusalCode(e)))))
      case Ok(room) =>
        var entered := room.(members := room.members + [p.cid]);
        var joined := p.(curRoom := roomNum);
        gs.lobbies == WithRoom(old(gs.lobbies), p.mode, p.curLobby, roomNum, entered)
        && (!StatFits(entered) ==> out == Panicked && gs.conns == old(gs.conns)[who := joined])
        && (StatFits(entered) ==>
              (out == Done <==> TargetsConnected(gs.connLookup, entered.members, Some(p.cid)))
              && (out == Done ==>
                    (RoomAtWellFormed(old(gs.lobbies), p.mode, p.curLobby, roomNum);
                     Relayed(Deliver(old(gs.conns)[who := joined], who, Queued(Some(pid), AckEnterRoom(RoomPacket(p.mode, p.curLobby, entered)))),
                       gs.connLookup, entered.members, Some(p.cid), Queued(None, SendUList(MakeUList(joined)))) == Some(gs.conns))))
  {
    var p := gs.conns[who];
    var check := EnterRoomCheck(p, gs.lobbies, roomNum, password);
    if check.Err? {
      gs.WriteWithPid(who, AckEnterRoom(CreateError(p.mode, p.curLobby, RefusalCode(check.error))), pid);
      return Done;
    }
    var room := check.value;
    var entered := room.(members := room.members + [p.cid]);
    var joined := p.(curRoom := roomNum);
    RoomAtWellFormed(gs.lobbies, p.mode, p.curLobby, roomNum);
    JoinRoom(gs, who, roomNum, room);
    if !StatFits(entered) {
      return Panicked;
    }
    gs.WriteWithPid(who, AckEnterRoom(RoomPacket(p.mode, p.curLobby, entered)), pid);
    out := Announce(gs, entered.members, Some(p.cid), Queued(None, SendUList(MakeUList(joined))));
  }
}
