/** Lobbies and the rooms in them (src/gs2/lobby_mgmt.rs): the data, the
    lookups, room numbering, and the conversions between a room and the
    `Packet19` that describes it. The handlers that change the server's
    lobbies are in `LobbyMgmt`.

    A room's name and password are kept as the UTF-16 code units before the
    first NUL of the request's fixed-capacity strings; the source goes
    through a Rust `String` (replacing unpaired surrogates) and back. */
module Rooms {
  import opened Wrappers
  import opened Strings
  import opened Packets

  /** `usize` is 64 bits wide on the targets the server is built for. */
  const UsizeModulus: int := 0x1_0000_0000_0000_0000

  datatype Room = Room(
    roomNum: i8,
    members: seq<i32>,
    maxMembers: nat,
    name: seq<u16>,
    password: Option<seq<u16>>,
    allowSpectators: bool,
    rules: i8,
    course: i8,
    season: i8,
    timeLimit: i8,
    numHoles: i8,
    courseSetting: i8,
    limits: seq<nat>,
    currentPlayer: i32)

  datatype Lobby = Lobby(name: string, members: seq<i32>, maxMembers: nat, rooms: seq<Room>)

  /** `Lobbies`: the VS lobbies and the Competition lobbies. */
  datatype Lobbies = Lobbies(vs: seq<Lobby>, compe: seq<Lobby>)

  /** `create_initial_lobbies`: one VS lobby "Foo" and one Competition lobby
      "Bar", each for ten players, with no rooms. */
  const InitialLobbies := Lobbies([Lobby("Foo", [], 10, [])], [Lobby("Bar", [], 10, [])])

  /** `Lobbies::lobbies`: only VS and Competition have lobbies. */
  function LobbyList(ls: Lobbies, mode: Mode): (r: Option<seq<Lobby>>)
    ensures r.Some? <==> mode == VS || mode == Competition
    ensures mode == VS ==> r == Some(ls.vs)
    ensures mode == Competition ==> r == Some(ls.compe)
  {
    match mode
    case VS => Some(ls.vs)
    case Competition => Some(ls.compe)
    case _ => None
  }

  /** `Lobbies::lobby`: lobby `num` of the mode, if the mode has lobbies and
      `num` is neither negative nor past the end. */
  function LobbyAt(ls: Lobbies, mode: Mode, num: int): (r: Option<Lobby>)
    ensures r.Some? <==> (mode == VS || mode == Competition) && 0 <= num < |LobbyList(ls, mode).value|
    ensures r.Some? ==> r.value == LobbyList(ls, mode).value[num]
  {
    match LobbyList(ls, mode)
    case None => None
    case Some(lobbies) => if 0 <= num < |lobbies| then Some(lobbies[num]) else None
  }

  /** The lobbies with lobby `num` of `mode` replaced, as `lobby_mut` and
      an assignment through it do. */
  function WithLobby(ls: Lobbies, mode: Mode, num: int, lobby: Lobby): (r: Lobbies)
    requires LobbyAt(ls, mode, num).Some?
    ensures LobbyAt(r, mode, num) == Some(lobby)
    ensures forall m, n :: m != mode || n != num ==> LobbyAt(r, m, n) == LobbyAt(ls, m, n)
  {
    if mode == VS then ls.(vs := ls.vs[num := lobby]) else ls.(compe := ls.compe[num := lobby])
  }

  /** Room numbers strictly increase along the list. */
  predicate Sorted(rooms: seq<Room>) {
    forall i, j :: 0 <= i < j < |rooms| ==> rooms[i].roomNum < rooms[j].roomNum
  }

  /** Some room in the list has number `k`. */
  predicate Used(rooms: seq<Room>, k: int) {
    exists i :: 0 <= i < |rooms| && rooms[i].roomNum == k
  }

  /** `binary_search_by_key` on the room numbers of `rooms[lo..hi]`: the
      index of a room numbered `num`, or `None`. */
  function Search(rooms: seq<Room>, num: int, lo: nat, hi: nat): (r: Option<nat>)
    requires lo <= hi <= |rooms|
    ensures r.Some? ==> lo <= r.value < hi && rooms[r.value].roomNum == num
    decreases hi - lo
  {
    if lo == hi then None
    else
      var mid := lo + (hi - lo) / 2;
      if rooms[mid].roomNum == num then Some(mid)
      else if rooms[mid].roomNum < num then Search(rooms, num, mid + 1, hi)
      else Search(rooms, num, lo, mid)
  }

  /** On a sorted list the search misses only when no room has the number. */
  lemma SearchFinds(rooms: seq<Room>, num: int, lo: nat, hi: nat)
    requires lo <= hi <= |rooms| && Sorted(rooms)
    ensures Search(rooms, num, lo, hi).None? <==> forall i :: lo <= i < hi ==> rooms[i].roomNum != num
  {
    if Search(rooms, num, lo, hi).None? {
      forall i | lo <= i < hi ensures rooms[i].roomNum != num {
        SearchMisses(rooms, num, lo, hi, i);
      }
    }
  }

  /** A miss on a sorted list rules out each room of the range. */
  lemma {:induction false} SearchMisses(rooms: seq<Room>, num: int, lo: nat, hi: nat, i: nat)
    requires lo <= i < hi <= |rooms| && Sorted(rooms) && Search(rooms, num, lo, hi).None?
    ensures rooms[i].roomNum != num
    decreases hi - lo
  {
    var mid := lo + (hi - lo) / 2;
    if i < mid {
      if rooms[mid].roomNum < num {
        SortedAt(rooms, i, mid);
      } else {
        SearchMisses(rooms, num, lo, mid, i);
      }
    } else if mid < i {
      if rooms[mid].roomNum > num {
        SortedAt(rooms, mid, i);
      } else {
        SearchMisses(rooms, num, mid + 1, hi, i);
      }
    }
  }

  lemma SortedAt(rooms: seq<Room>, i: nat, j: nat)
    requires Sorted(rooms) && i < j < |rooms|
    ensures rooms[i].roomNum < rooms[j].roomNum
  {
  }

  /** The index of the room numbered `num` in a lobby. */
  function RoomIndex(lobby: Lobby, num: int): (r: Option<nat>)
    ensures r.Some? ==> r.value < |lobby.rooms| && lobby.rooms[r.value].roomNum == num
    ensures Sorted(lobby.rooms) ==> (r.None? <==> !Used(lobby.rooms, num))
  {
    var r := Search(lobby.rooms, num, 0, |lobby.rooms|);
    if Sorted(lobby.rooms) then SearchFinds(lobby.rooms, num, 0, |lobby.rooms|); r else r
  }

  /** `Lobbies::room`: the room numbered `roomNum` in lobby `lobbyNum` of
      the mode. */
  function RoomAt(ls: Lobbies, mode: Mode, lobbyNum: int, roomNum: int): Option<Room> {
    match LobbyAt(ls, mode, lobbyNum)
    case None => None
    case Some(lobby) =>
      match RoomIndex(lobby, roomNum)
      case None => None
      case Some(k) => Some(lobby.rooms[k])
  }

  /** The lobbies with the room numbered `roomNum` replaced, as `room_mut`
      and an assignment through it do. */
  function WithRoom(ls: Lobbies, mode: Mode, lobbyNum: int, roomNum: int, room: Room): (r: Lobbies)
    requires RoomAt(ls, mode, lobbyNum, roomNum).Some?
  {
    var lobby := LobbyAt(ls, mode, lobbyNum).value;
    var k := RoomIndex(lobby, roomNum).value;
    WithLobby(ls, mode, lobbyNum, lobby.(rooms := lobby.rooms[k := room]))
  }

  /** The smallest number from `k` to 127 that no room uses. */
  function FirstFreeFrom(rooms: seq<Room>, k: nat): (r: Option<i8>)
    requires k <= 128
    ensures r.Some? ==> k <= r.value <= 127 && !Used(rooms, r.value) && forall j :: k <= j < r.value ==> Used(rooms, j)
    ensures r.None? ==> forall j :: k <= j <= 127 ==> Used(rooms, j)
    decreases 128 - k
  {
    if k == 128 then None
    else if !Used(rooms, k) then Some(k)
    else FirstFreeFrom(rooms, k + 1)
  }

  /** Every room number is in 0..=127. */
  predicate NonNegativeNumbers(rooms: seq<Room>) {
    forall i :: 0 <= i < |rooms| ==> rooms[i].roomNum >= 0
  }

  /** `Lobby::pick_free_room_num`: walks the rooms, which it assumes sorted,
      with a candidate that starts at 0 and moves past each room that takes
      it. The answer is the smallest number in 0..=127 that no room uses,
      and `None` exactly when all 128 are taken. */
  method PickFreeRoomNum(lobby: Lobby) returns (r: Option<i8>)
    requires Sorted(lobby.rooms) && NonNegativeNumbers(lobby.rooms)
    ensures r == FirstFreeFrom(lobby.rooms, 0)
  {
    var rooms := lobby.rooms;
    var candidate: i8 := 0;
    var i := 0;
    while i < |rooms|
      invariant 0 <= i <= |rooms| && 0 <= candidate
      invariant forall j :: 0 <= j < candidate ==> Used(rooms, j)
      invariant forall j :: 0 <= j < i ==> rooms[j].roomNum < candidate
      invariant forall j :: i <= j < |rooms| ==> rooms[j].roomNum >= candidate
    {
      var room := rooms[i];
      if room.roomNum > candidate {
        break;
      } else if room.roomNum == 127 {
        assert forall j :: 0 <= j <= 127 ==> Used(rooms, j);
        return None;
      } else {
        candidate := room.roomNum + 1;
      }
      i := i + 1;
    }
    assert !Used(rooms, candidate);
    r := Some(candidate);
  }

  /** Whether bit `bit` (a power of two) is set in the two's-complement
      byte of `flag`. */
  predicate FlagSet(flag: i8, bit: nat)
    requires bit > 0
  {
    (flag % 256) / bit % 2 == 1
  }

  /** `i8 as usize`: a negative value sign-extends. */
  function UsizeOfI8(x: i8): (n: nat)
    ensures x >= 0 ==> n == x
    ensures x < 0 ==> n == x + UsizeModulus
  {
    if x >= 0 then x else x + UsizeModulus
  }

  /** `Room::new`: an empty room with the requested capacity and settings,
      a password only when flag bit 4 is set, spectators when bit 2 is set,
      and no current player (-1). */
  function NewRoom(roomNum: i8, data: Packet19): (r: Room)
    ensures r.roomNum == roomNum && r.members == [] && r.currentPlayer == -1
    ensures r.password.Some? <==> FlagSet(data.roomStat.flag, 4)
    ensures r.allowSpectators <==> FlagSet(data.roomStat.flag, 2)
  {
    var s := data.roomStat;
    Room(roomNum, [], UsizeOfI8(s.memberMax), WToString(data.roomName),
      if FlagSet(s.flag, 4) then Some(WToString(data.roomPassword)) else None,
      FlagSet(s.flag, 2), s.rules, s.course, s.season, s.timeLimit, s.numHoles, s.courseSetting, s.limits, -1)
  }

  /** The two `try_into().unwrap()` conversions of `make_room_stat` succeed:
      capacity and head count fit an `i8`. */
  predicate StatFits(room: Room) {
    room.maxMembers <= 127 && |room.members| <= 127
  }

  /** `Room::make_room_stat`: flag 2 for spectators and 4 for a password,
      the capacity, the head count, no watchers, and the settings. */
  function MakeRoomStat(room: Room): (s: RoomStat)
    requires StatFits(room)
    ensures s.room == room.roomNum && s.memberMax as int == room.maxMembers && s.member as int == |room.members|
    ensures FlagSet(s.flag, 2) <==> room.allowSpectators
    ensures FlagSet(s.flag, 4) <==> room.password.Some?
  {
    FlagBits(room.allowSpectators, room.password.Some?);
    RoomStat(room.roomNum, (if room.allowSpectators then 2 else 0) + (if room.password.Some? then 4 else 0),
      room.maxMembers, |room.members|, 0, room.rules, room.timeLimit, room.course, room.season,
      room.numHoles, room.courseSetting, room.limits)
  }

  /** A request as the wire delivers it: a `WString<33>` name, a
      `WString<17>` password. */
  predicate RequestShaped(data: Packet19) {
    |data.roomName.units| == RoomNameCapacity && |data.roomPassword.units| == RoomPasswordCapacity
  }

  /** The name and password of a room fit back into their fixed-capacity
      strings and hold no NUL. */
  predicate NamesFit(room: Room) {
    0 !in room.name && |room.name| <= RoomNameCapacity
    && (room.password.Some? ==> 0 !in room.password.value && |room.password.value| <= RoomPasswordCapacity)
  }

  /** The name and password of a room are well-formed UTF-16, as the text of
      a `String` always is. */
  predicate NamesWellFormed(room: Room) {
    WellFormedUtf16(room.name) && (room.password.Some? ==> WellFormedUtf16(room.password.value))
  }

  /** The password written in a room's description: empty when it has none. */
  function PasswordText(room: Room): seq<u16> {
    if room.password.Some? then room.password.value else []
  }

  /** The `Packet19` describing a room (`handle_get_rooms`, and the reply to
      a successful `_enter_room_internal`). */
  function RoomPacket(mode: Mode, lobby: i8, room: Room): (p: Packet19)
    requires StatFits(room) && NamesFit(room)
    ensures p.mode == mode && p.lobby == lobby && p.roomStat == MakeRoomStat(room)
    ensures RequestShaped(p)
  {
    Packet19(mode, lobby, MakeRoomStat(room), WPadded(RoomNameCapacity, room.name),
      WPadded(RoomPasswordCapacity, PasswordText(room)))
  }

  /** A room made from a request with a capacity that is not negative
      describes itself with the request's number of places and settings, no
      members and no watchers; of the flag it keeps exactly the spectator
      (2) and password (4) bits. */
  lemma NewRoomStat(num: i8, data: Packet19)
    requires data.roomStat.memberMax >= 0
    ensures StatFits(NewRoom(num, data))
    ensures var s := MakeRoomStat(NewRoom(num, data)); var d := data.roomStat;
      s.room == num && s.memberMax == d.memberMax && s.member == 0 && s.watcher == 0
      && s.rules == d.rules && s.timeLimit == d.timeLimit && s.course == d.course && s.season == d.season
      && s.numHoles == d.numHoles && s.courseSetting == d.courseSetting && s.limits == d.limits
    ensures var f := MakeRoomStat(NewRoom(num, data)).flag;
      f in {0, 2, 4, 6} && (FlagSet(f, 2) <==> FlagSet(data.roomStat.flag, 2)) && (FlagSet(f, 4) <==> FlagSet(data.roomStat.flag, 4))
  {
  }

  /** A negative capacity in the request becomes a `usize` so large that no
      room ever fills, and its description can never be built: every
      `make_room_stat` of such a room panics. */
  lemma NegativeCapacityNeverFits(num: i8, data: Packet19, members: seq<i32>)
    requires data.roomStat.memberMax < 0 && |members| < 0x8000_0000
    ensures var room := NewRoom(num, data).(members := members);
      |room.members| < room.maxMembers && !StatFits(room)
  {
  }

  /** Describing a well-formed room and making a room from that description
      gives the room back, empty and without a current player. */
  lemma RoomRoundTrip(mode: Mode, lobby: i8, room: Room)
    requires StatFits(room) && NamesFit(room) && NamesWellFormed(room)
    ensures NewRoom(room.roomNum, RoomPacket(mode, lobby, room)) == room.(members := [], currentPlayer := -1)
  {
    WToStringFromStr(RoomNameCapacity, room.name);
    WToStringFromStr(RoomPasswordCapacity, PasswordText(room));
    FlagBits(room.allowSpectators, room.password.Some?);
  }

  /** The flag `make_room_stat` builds has bit 2 exactly for spectators and
      bit 4 exactly for a password. */
  lemma FlagBits(spectators: bool, password: bool)
    ensures var f := (if spectators then 2 else 0) + (if password then 4 else 0);
      (FlagSet(f, 2) <==> spectators) && (FlagSet(f, 4) <==> password)
  {
    if spectators && password {
      assert FlagSet(6, 2) && FlagSet(6, 4);
    } else if spectators {
      assert FlagSet(2, 2) && !FlagSet(2, 4);
    } else if password {
      assert !FlagSet(4, 2) && FlagSet(4, 4);
    } else {
      assert !FlagSet(0, 2) && !FlagSet(0, 4);
    }
  }

  /** Where a room numbered `num` goes in a sorted list: after every room
      whose number is not larger. */
  function InsertionPoint(rooms: seq<Room>, num: int): (k: nat)
    ensures k <= |rooms|
    ensures forall i :: 0 <= i < k ==> rooms[i].roomNum <= num
    ensures k < |rooms| ==> rooms[k].roomNum > num
  {
    if rooms == [] || rooms[0].roomNum > num then 0 else 1 + InsertionPoint(rooms[1..], num)
  }

  /** `rooms.push(room)` then the stable `sort_by_key(room_num)`: on a
      sorted list the new room lands before the first room with a larger
      number. */
  function InsertRoom(rooms: seq<Room>, room: Room): (r: seq<Room>)
    ensures |r| == |rooms| + 1
  {
    var k := InsertionPoint(rooms, room.roomNum);
    rooms[..k] + [room] + rooms[k..]
  }

  /** Inserting a room with an unused number keeps the list sorted, and the
      result holds exactly the old rooms and the new one: the unique sorted
      arrangement that the sort produces. */
  lemma InsertRoomSorted(rooms: seq<Room>, room: Room)
    requires Sorted(rooms) && !Used(rooms, room.roomNum)
    ensures Sorted(InsertRoom(rooms, room))
    ensures multiset(InsertRoom(rooms, room)) == multiset(rooms) + multiset{room}
  {
    var k := InsertionPoint(rooms, room.roomNum);
    var r := InsertRoom(rooms, room);
    InsertRoomContents(rooms, room);
    forall i | 0 <= i < k ensures rooms[i].roomNum < room.roomNum {
      assert rooms[i].roomNum != room.roomNum;
    }
    forall i, j | 0 <= i < j < |r| ensures r[i].roomNum < r[j].roomNum {
      if j < k {
        assert r[i] == rooms[i] && r[j] == rooms[j];
      } else if j == k {
        assert r[i] == rooms[i];
      } else if i < k {
        assert r[i] == rooms[i] && r[j] == rooms[j - 1];
      } else if i == k {
        assert r[j] == rooms[j - 1];
      } else {
        assert r[i] == rooms[i - 1] && r[j] == rooms[j - 1];
      }
    }
  }

  /** The inserted list is the old list with the room in between. */
  lemma InsertRoomContents(rooms: seq<Room>, room: Room)
    ensures var k := InsertionPoint(rooms, room.roomNum); var r := InsertRoom(rooms, room);
      r[k] == room && (forall i :: 0 <= i < k ==> r[i] == rooms[i]) && (forall i :: k < i < |r| ==> r[i] == rooms[i - 1])
    ensures multiset(InsertRoom(rooms, room)) == multiset(rooms) + multiset{room}
  {
    InsertRoomPositions(rooms, room);
    InsertRoomMultiset(rooms, room);
  }

  /** Where each room of the inserted list comes from. */
  lemma InsertRoomPositions(rooms: seq<Room>, room: Room)
    ensures var k := InsertionPoint(rooms, room.roomNum); var r := InsertRoom(rooms, room);
      r[k] == room && (forall i :: 0 <= i < k ==> r[i] == rooms[i]) && (forall i :: k < i < |r| ==> r[i] == rooms[i - 1])
  {
    var k := InsertionPoint(rooms, room.roomNum);
    var a, b := rooms[..k], rooms[k..];
    var r := InsertRoom(rooms, room);
    assert r == a + [room] + b;
    assert r[k] == room;
    forall i | 0 <= i < k ensures r[i] == rooms[i] {
      assert r[i] == a[i];
    }
    forall i | k < i < |r| ensures r[i] == rooms[i - 1] {
      assert r[i] == b[i - k - 1];
    }
  }

  /** The inserted list holds the old rooms and the new one. */
  lemma InsertRoomMultiset(rooms: seq<Room>, room: Room)
    ensures multiset(InsertRoom(rooms, room)) == multiset(rooms) + multiset{room}
  {
    var k := InsertionPoint(rooms, room.roomNum);
    var a, b := rooms[..k], rooms[k..];
    assert rooms == a + b;
    assert multiset(rooms) == multiset(a) + multiset(b);
    assert InsertRoom(rooms, room) == (a + [room]) + b;
    assert multiset(a + [room]) == multiset(a) + multiset{room};
  }

  /** A room is well formed: its number comes from `pick_free_room_num`,
      and its name and password came from fixed-capacity strings. */
  predicate RoomWellFormed(room: Room) {
    0 <= room.roomNum && NamesFit(room) && NamesWellFormed(room)
  }

  /** The members of a list are pairwise different. */
  predicate Distinct(cids: seq<i32>) {
    forall i, j :: 0 <= i < j < |cids| ==> cids[i] != cids[j]
  }

  /** A lobby's rooms are sorted and well formed, its members are distinct,
      and they fit its capacity, which fits an `i16`. */
  predicate LobbyWellFormed(lobby: Lobby) {
    Sorted(lobby.rooms) && (forall i :: 0 <= i < |lobby.rooms| ==> RoomWellFormed(lobby.rooms[i]))
    && Distinct(lobby.members) && |lobby.members| <= lobby.maxMembers < 0x8000
  }

  predicate LobbiesWellFormed(ls: Lobbies) {
    (forall i :: 0 <= i < |ls.vs| ==> LobbyWellFormed(ls.vs[i]))
    && (forall i :: 0 <= i < |ls.compe| ==> LobbyWellFormed(ls.compe[i]))
  }

  /** `Lobby::make_lobby_data`: its number, capacity, head count, name and
      mode; the source unwraps the conversions of capacity and head count
      to `i16`. */
  function MakeLobbyData(lobby: Lobby, mode: Mode, num: i8): (d: LobbyData)
    requires lobby.maxMembers < 0x8000 && |lobby.members| < 0x8000
    ensures d.num == num && d.mode == mode && d.name == lobby.name
    ensures d.memberMax as int == lobby.maxMembers && d.member as int == |lobby.members|
  {
    LobbyData(num, lobby.maxMembers, |lobby.members|, lobby.name, mode)
  }

  /** The lobbies the server starts with are well formed. */
  lemma InitialLobbiesWellFormed()
    ensures LobbiesWellFormed(InitialLobbies)
  {
  }
}
