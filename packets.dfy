/** The protocol's messages (src/packets/mod.rs).

    A frame is a header, an `i16` id and an `i16` pid, followed by a body
    whose layout the id selects. The body layouts of the protocol's ~150
    messages are derived by the serialisation library and are not part of
    this model: `Packet` lists the messages the game and login servers
    handle or send, with the fields those servers read or fill in, and the
    catch-all `Unknown` for an id the protocol does not list. */
module Packets {
  import opened Wrappers
  import opened Wire
  import opened Strings
  import Items
  import CountedItems
  import Ranks
  import Users
  import Characters
  import Appearances
  import Shop
  import Records
  import MessageKinds

  /** `Mode`: the part of the game a player is in, an `i8` on the wire. */
  datatype Mode = NoMode | Main | VS | Competition | Quick | Mode4 | Single

  function ModeValue(m: Mode): (v: i8)
    ensures -1 <= v <= 5
  {
    match m
    case NoMode => -1
    case Main => 0
    case VS => 1
    case Competition => 2
    case Quick => 3
    case Mode4 => 4
    case Single => 5
  }

  /** Reading a `Mode`: -1 to 5 name a mode, any other `i8` is refused. */
  function ModeFromValue(v: i8): (r: Option<Mode>)
    ensures r.Some? <==> -1 <= v <= 5
    ensures r.Some? ==> ModeValue(r.value) == v
  {
    match v
    case -1 => Some(NoMode)
    case 0 => Some(Main)
    case 1 => Some(VS)
    case 2 => Some(Competition)
    case 3 => Some(Quick)
    case 4 => Some(Mode4)
    case 5 => Some(Single)
    case _ => None
  }

  /** Every mode reads back as itself. */
  lemma ModeRoundTrip(m: Mode)
    ensures ModeFromValue(ModeValue(m)) == Some(m)
  {
  }

  /** `Status`: -1 for a failure, 0 for success. */
  datatype Status = StatusErr | StatusOk

  /** `AckIDPassResult`: the answer to a login attempt. */
  datatype AckIDPassResult = IdPassOk | IDError | PassError | BanError | AccountNotError | MultiLoginError | VersionError

  function AckIDPassValue(r: AckIDPassResult): (v: i8)
    ensures -6 <= v <= 0
    ensures v == 0 <==> r == IdPassOk
  {
    match r
    case IdPassOk => 0
    case IDError => -1
    case PassError => -2
    case BanError => -3
    case AccountNotError => -4
    case MultiLoginError => -5
    case VersionError => -6
  }

  /** `BuyItemResult`: the answer to a purchase. */
  datatype BuyItemResult = BuyOk | BuyBalance | BuyNoItem | BuyInvalidCount | BuyInvalidItemType | BuyErr | BuyNoTicket

  function BuyItemValue(r: BuyItemResult): (v: i8)
    ensures -6 <= v <= 0
    ensures v == 0 <==> r == BuyOk
  {
    match r
    case BuyOk => 0
    case BuyBalance => -1
    case BuyNoItem => -2
    case BuyInvalidCount => -3
    case BuyInvalidItemType => -4
    case BuyErr => -5
    case BuyNoTicket => -6
  }

  /** The two answer codes are one-to-one. */
  lemma AnswerCodesDistinct(a: AckIDPassResult, b: AckIDPassResult, x: BuyItemResult, y: BuyItemResult)
    ensures AckIDPassValue(a) == AckIDPassValue(b) ==> a == b
    ensures BuyItemValue(x) == BuyItemValue(y) ==> x == y
  {
  }

  /** `Stat`: a player's status flags, a `u32` whose every bit is kept,
      named or not. */
  type Stat = bv32

  /** Reading a `Stat` keeps the whole word (`from_bits_retain`). */
  function ReadStat(fs: seq<Field>): (r: Result<(Stat, seq<Field>), DekuError>)
    ensures r.Ok? <==> |fs| >= 1 && fs[0].U32?
    ensures r.Ok? ==> r.value.0 == fs[0].u32 && r.value.1 == fs[1..]
    ensures r.Err? ==> r.error == Incomplete
  {
    if |fs| >= 1 && fs[0].U32? then Ok((fs[0].u32, fs[1..])) else Err(Incomplete)
  }

  /** Writing a `Stat` emits its bits unchanged. */
  function WriteStat(s: Stat): (fs: seq<Field>)
    ensures Kinds(fs) == [KU32] && fs[0].u32 == s
  {
    [U32(s)]
  }

  /** Every `u32` is a `Stat` that survives a write and a read, whatever
      follows it. */
  lemma StatRoundTrip(s: Stat, rest: seq<Field>)
    ensures ReadStat(WriteStat(s) + rest) == Ok((s, rest))
  {
    assert (WriteStat(s) + rest)[1..] == rest;
  }

  /** `PacketHeader`: the message id and the pid. */
  datatype PacketHeader = PacketHeader(id: i16, pid: i16)

  function WriteHeader(h: PacketHeader): (fs: seq<Field>)
    ensures Kinds(fs) == [KI16, KI16]
  {
    [I16(h.id), I16(h.pid)]
  }

  /** Reading a header: two `i16` fields, id then pid. */
  function ReadHeader(fs: seq<Field>): (r: Result<(PacketHeader, seq<Field>), DekuError>)
    ensures r.Ok? <==> |fs| >= 2 && Kinds(fs[..2]) == [KI16, KI16]
    ensures r.Ok? ==> r.value.1 == fs[2..]
    ensures r.Err? ==> r.error == Incomplete
  {
    if |fs| >= 2 && fs[0].I16? && fs[1].I16? then Ok((PacketHeader(fs[0].i16, fs[1].i16), fs[2..]))
    else Err(Incomplete)
  }

  lemma HeaderRoundTrip(h: PacketHeader, rest: seq<Field>)
    ensures ReadHeader(WriteHeader(h) + rest) == Ok((h, rest))
  {
    var fs := WriteHeader(h) + rest;
    assert fs[..2] == WriteHeader(h) && fs[2..] == rest;
  }

  /** A 32-bit float, kept as its bit pattern: the servers relay floats
      unchanged and never compute with them. */
  datatype F32 = F32(bits: bv32)

  /** `RoomStat`: a room's settings. `limits` holds the thirteen narrow
      competition limits (`limit_0` to `limit_7`, `limit_b_0` to
      `limit_b_4`) in declaration order. */
  datatype RoomStat = RoomStat(
    room: i8,
    flag: i8,
    memberMax: i8,
    member: i8,
    watcher: i8,
    rules: i8,
    timeLimit: i8,
    course: i8,
    season: i8,
    numHoles: i8,
    courseSetting: i8,
    limits: seq<nat>)

  /** The number of narrow competition limits in a `RoomStat`. */
  const LimitCount: nat := 13

  /** `Packet19`: a room as seen from a lobby, its name a `WString<33>`
      and its password a `WString<17>`. */
  datatype Packet19 = Packet19(mode: Mode, lobby: i8, roomStat: RoomStat, roomName: WString, roomPassword: WString)

  const RoomNameCapacity: nat := 33
  const RoomPasswordCapacity: nat := 17

  /** `Packet19::create_error`: the answer to a refused room request, which
      carries the error code where the room number would be. */
  function CreateError(mode: Mode, lobby: i8, code: i8): (p: Packet19)
    ensures p.mode == mode && p.lobby == lobby && p.roomStat.room == code
    ensures var s := p.roomStat;
      s.flag == s.memberMax == s.member == s.watcher == s.rules == s.timeLimit == 0
      && s.course == s.season == s.numHoles == s.courseSetting == 0
    ensures |p.roomStat.limits| == LimitCount && forall i :: 0 <= i < LimitCount ==> p.roomStat.limits[i] == 0
    ensures |p.roomName.units| == RoomNameCapacity && WToString(p.roomName) == []
    ensures |p.roomPassword.units| == RoomPasswordCapacity && WToString(p.roomPassword) == []
  {
    WDefaultIsEmpty(RoomNameCapacity);
    WDefaultIsEmpty(RoomPasswordCapacity);
    Packet19(mode, lobby, RoomStat(code, 0, 0, 0, 0, 0, 0, 0, 0, 0, 0, Repeat(0, LimitCount)),
      WDefault(RoomNameCapacity), WDefault(RoomPasswordCapacity))
  }

  /** `UData`: a player's profile as the game server sends it. Awards,
      medals and the other constant fields are zero or fixed in every
      message the server builds and are not kept here. */
  datatype UData = UData(
    cid: i32,
    uid: i32,
    chrUid: i32,
    golfbag: seq<Items.Item>,
    holdbox: seq<Items.Item>,
    name: string,
    element: Users.Element,
    rank: Ranks.Rank)

  /** `UList` and `UListL`: a player as listed in a room or a lobby; `stat`
      is the low 16 bits of the player's status. */
  datatype UList = UList(
    cid: i32,
    uid: i32,
    stat: bv32,
    mode: Mode,
    lobby: i8,
    room: i8,
    pclass: Ranks.Class,
    element: Users.Element,
    name: string)

  /** `LobbyData`: a lobby's number, capacity, head count, name and mode. */
  datatype LobbyData = LobbyData(num: i8, memberMax: i16, member: i16, name: string, mode: Mode)

  /** `IDPass`: the login request, as the decoded user name and password. */
  datatype IDPass = IDPass(username: string, password: string, version: u16)

  /** `ORD_GAMESTART`: the game about to be played. The wind, weather, cup,
      caddie, ball and hold-box arrays are all zero in every game the
      server builds and are not kept here. */
  datatype GameStart = GameStart(
    mode: Mode,
    rule: i8,
    time: nat,
    member: i8,
    memberMax: i8,
    course: i8,
    season: i8,
    holes: i8,
    holeNo: seq<int>,
    cids: seq<i32>)

  /** The messages of the protocol that the servers handle or send. */
  datatype Packet =
    | SendIdPass(idPass: IDPass)
    | AckIdPass(result: AckIDPassResult)
    | ReqGmsvList
    | SendGmsvData(number: i16, port: u16, max: i16, now: i16)
    | AckGmsvList
    | AckIdPassG(udata: UData)
    | ReqChgMode(mode: Mode)
    | AckChgMode(mode: Mode)
    | GetLobbyNum
    | SendLobbyNum(lobbyCount: i8)
    | GetLobbyData(index: i8, mode: Mode)
    | SendLobbyData(lobbyData: LobbyData)
    | ReqEnterLobby(num: i8)
    | AckEnterLobby(num: i8)
    | ReqMakeRoom(request: Packet19)
    | AckMakeRoom(roomNum: i8)
    | GetRooms
    | RoomEntry(entry: Packet19)
    | ReqEnterRoom(roomNum: i8, password: WString)
    | AckEnterRoom(entry: Packet19)
    | ReqUList(mode: Mode, lobby: i8, roomNum: i8)
    | SendUList(ulist: UList)
    | AckUListR(status: Status)
    | SendUStat(cid: i32, uid: i32, stat: Stat)
    | ReqGameStart
    | OrdGameStart(game: GameStart)
    | AckGameStart(status: Status)
    | ClientCrClub(shotClub: i8)
    | SendCrClub(cid: i32, shotClub: i8)
    | ClientDirection(dir: F32)
    | SendDirection(cid: i32, dir: F32)
    | ClientShot(clock: nat, dir: F32, power: i16, impact: i16, hitX: i8, hitY: i8, shotClub: i8)
    | SendShot(clock: nat, cid: i32, dir: F32, power: i16, impact: i16, hitX: i8, hitY: i8, shotClub: i8)
    | ReqCRecord(uid: i32, course: i8, season: i8, holeIdx: i8)
    | SendCRecord(uid: i32, course: i8, season: i8, holeIdx: i8, record: Records.CRecord, status: Status)
    | ClientLoadStat(progress: i8)
    | SendLoadStat(cid: i32, progress: i8)
    | ClientLoadStat2(progress: i8)
    | SendLoadStat2(cid: i32, progress: i8)
    | ClientBallPos(hole: i8, ballStat: i8, x: F32, y: F32, z: F32)
    | SendBallPos(cid: i32, hole: i8, ballStat: i8, x: F32, y: F32, z: F32)
    | ClientStopBallPos(hole: i8, ballStat: i8, x: F32, y: F32, z: F32)
    | SendStopBallPos(cid: i32, hole: i8, ballStat: i8, x: F32, y: F32, z: F32)
    | ClientPCommand(p0: bv32, p1: bv32, cmdAndFlag: bv16)
    | SendPCommand(cid: i32, p0: bv32, p1: bv32, cmdAndFlag: bv16)
    | ReqAppear(cid: i32)
    | SendAppear(cid: i32, unk: i32, appearance: Appearances.Appearance)
    | ReqUListL(mode: Mode, num: i8)
    | SendUListL(ulist: UList)
    | GetSellItems
    | SendSellItemList(itemCount: i16, sellItems: seq<Shop.SellItem>)
    | GetSalonItems
    | SendSalonItemList(itemCount: i16, sellItems: seq<Shop.SellItem>)
    | ReqBuyItem(item: CountedItems.CountedItem)
    | AckBuyItem(buyResult: BuyItemResult)
    | GetMoney
    | RepMoney(gp: i32, sc: i32)
    | SetFirstCharacterAppearance(appearance: Appearances.Appearance)
    | AckFirstCharacterAppearance(status: Status)
    | ReqChrData(cid: i32, chrUid: i32)
    | SendChrData(cid: i32, uid: i32, data: Characters.ChrData)
    | GetChrData(cid: i32)
    | ReqChgAppear(cid: i32, chrUid: i32, appearance: Appearances.Appearance)
    | AckChgAppear(status: Status)
    | SetPlayerName(name: string)
    | AckSetCharacterName(status: Status)
    | GetInventory
    | SendInventory(inventoryCount: i32, inventory: seq<CountedItems.CountedItem>)
    | GetGolfbag
    | SendGolfbag(cid: i32, golfbag: seq<Items.Item>)
    | GetCurrChrUid(cid: i32)
    | SendCrChrUid(cid: i32, nowChrUid: i32)
    | ReqChgChrParam(chrUid: i32, crClass: Ranks.Class, params: seq<Characters.ParamTuple>,
                     club: Items.Item, ball: Items.Item, caddie: Items.Item)
    | AckChgChrParam(status: Status)
    | ReqUData(uid: i32)
    | SendUData(udata: UData)
    | ChgHoldbox(holdItems: seq<Items.Item>)
    | AckChgHoldbox(status: Status)
    | OrdColorResult(element: Users.Element, lastElement: Users.Element, colorResult: i8, rankInColor: i32, gp: i32,
                     colorItem: CountedItems.CountedItem)
    | GetModeCtrl
    | SendModeCtrl(flags: seq<bool>)
    | InitSingleMode
    | SingleModeItems(carryCount: i32, carryItems: seq<CountedItems.CountedItem>)
    | Unmodelled(id: UnmodelledId)  // a listed message no modelled handler reads or sends
    | Unknown

  /** The id of a message the protocol lists but that has no constructor of
      its own here, such as 6, `SEND_IDPASS_G`, which the per-connection
      task reads before the player reaches the server. */
  type UnmodelledId = id: i16 | MessageKinds.KindOfId(id).None? witness 6

  /** The id a message is written with. `Unknown` matches every unlisted id
      and has none of its own, so it cannot be written. */
  function IdOf(p: Packet): (r: Option<i16>)
    ensures r.None? <==> p.Unknown?
  {
    if p.Unknown? then None
    else if p.Unmodelled? then Some(p.id as i16)
    else Some(MessageKinds.Id(KindOf(p)))
  }

  /** The kind of a message with a constructor of its own: one kind per
      constructor. */
  function KindOf(p: Packet): MessageKinds.Kind
    requires !p.Unmodelled? && !p.Unknown?
  {
    match p
    case SendIdPass(_) => MessageKinds.SendIdPass
    case AckIdPass(_) => MessageKinds.AckIdPass
    case ReqGmsvList => MessageKinds.ReqGmsvList
    case SendGmsvData(_, _, _, _) => MessageKinds.SendGmsvData
    case AckGmsvList => MessageKinds.AckGmsvList
    case AckIdPassG(_) => MessageKinds.AckIdPassG
    case ReqChgMode(_) => MessageKinds.ReqChgMode
    case AckChgMode(_) => MessageKinds.AckChgMode
    case GetLobbyNum => MessageKinds.GetLobbyNum
    case SendLobbyNum(_) => MessageKinds.SendLobbyNum
    case GetLobbyData(_, _) => MessageKinds.GetLobbyData
    case SendLobbyData(_) => MessageKinds.SendLobbyData
    case ReqEnterLobby(_) => MessageKinds.ReqEnterLobby
    case AckEnterLobby(_) => MessageKinds.AckEnterLobby
    case ReqMakeRoom(_) => MessageKinds.ReqMakeRoom
    case AckMakeRoom(_) => MessageKinds.AckMakeRoom
    case GetRooms => MessageKinds.GetRooms
    case RoomEntry(_) => MessageKinds.RoomEntry
    case ReqEnterRoom(_, _) => MessageKinds.ReqEnterRoom
    case AckEnterRoom(_) => MessageKinds.AckEnterRoom
    case ReqUList(_, _, _) => MessageKinds.ReqUList
    case SendUList(_) => MessageKinds.SendUList
    case AckUListR(_) => MessageKinds.AckUListR
    case SendUStat(_, _, _) => MessageKinds.SendUStat
    case ReqGameStart => MessageKinds.ReqGameStart
    case OrdGameStart(_) => MessageKinds.OrdGameStart
    case AckGameStart(_) => MessageKinds.AckGameStart
    case ClientCrClub(_) => MessageKinds.ClientCrClub
    case SendCrClub(_, _) => MessageKinds.SendCrClub
    case ClientDirection(_) => MessageKinds.ClientDirection
    case SendDirection(_, _) => MessageKinds.SendDirection
    case ClientShot(_, _, _, _, _, _, _) => MessageKinds.ClientShot
    case SendShot(_, _, _, _, _, _, _, _) => MessageKinds.SendShot
    case ReqCRecord(_, _, _, _) => MessageKinds.ReqCRecord
    case SendCRecord(_, _, _, _, _, _) => MessageKinds.SendCRecord
    case ClientLoadStat(_) => MessageKinds.ClientLoadStat
    case SendLoadStat(_, _) => MessageKinds.SendLoadStat
    case ClientLoadStat2(_) => MessageKinds.ClientLoadStat2
    case SendLoadStat2(_, _) => MessageKinds.SendLoadStat2
    case ClientBallPos(_, _, _, _, _) => MessageKinds.ClientBallPos
    case SendBallPos(_, _, _, _, _, _) => MessageKinds.SendBallPos
    case ClientStopBallPos(_, _, _, _, _) => MessageKinds.ClientStopBallPos
    case SendStopBallPos(_, _, _, _, _, _) => MessageKinds.SendStopBallPos
    case ClientPCommand(_, _, _) => MessageKinds.ClientPCommand
    case SendPCommand(_, _, _, _) => MessageKinds.SendPCommand
    case ReqAppear(_) => MessageKinds.ReqAppear
    case SendAppear(_, _, _) => MessageKinds.SendAppear
    case ReqUListL(_, _) => MessageKinds.ReqUListL
    case SendUListL(_) => MessageKinds.SendUListL
    case GetSellItems => MessageKinds.GetSellItems
    case SendSellItemList(_, _) => MessageKinds.SendSellItemList
    case GetSalonItems => MessageKinds.GetSalonItems
    case SendSalonItemList(_, _) => MessageKinds.SendSalonItemList
    case ReqBuyItem(_) => MessageKinds.ReqBuyItem
    case AckBuyItem(_) => MessageKinds.AckBuyItem
    case GetMoney => MessageKinds.GetMoney
    case RepMoney(_, _) => MessageKinds.RepMoney
    case SetFirstCharacterAppearance(_) => MessageKinds.SetFirstCharacterAppearance
    case AckFirstCharacterAppearance(_) => MessageKinds.AckFirstCharacterAppearance
    case ReqChrData(_, _) => MessageKinds.ReqChrData
    case SendChrData(_, _, _) => MessageKinds.SendChrData
    case GetChrData(_) => MessageKinds.GetChrData
    case ReqChgAppear(_, _, _) => MessageKinds.ReqChgAppear
    case AckChgAppear(_) => MessageKinds.AckChgAppear
    case SetPlayerName(_) => MessageKinds.SetPlayerName
    case AckSetCharacterName(_) => MessageKinds.AckSetCharacterName
    case GetInventory => MessageKinds.GetInventory
    case SendInventory(_, _) => MessageKinds.SendInventory
    case GetGolfbag => MessageKinds.GetGolfbag
    case SendGolfbag(_, _) => MessageKinds.SendGolfbag
    case GetCurrChrUid(_) => MessageKinds.GetCurrChrUid
    case SendCrChrUid(_, _) => MessageKinds.SendCrChrUid
    case ReqChgChrParam(_, _, _, _, _, _) => MessageKinds.ReqChgChrParam
    case AckChgChrParam(_) => MessageKinds.AckChgChrParam
    case ReqUData(_) => MessageKinds.ReqUData
    case SendUData(_) => MessageKinds.SendUData
    case ChgHoldbox(_) => MessageKinds.ChgHoldbox
    case AckChgHoldbox(_) => MessageKinds.AckChgHoldbox
    case OrdColorResult(_, _, _, _, _, _) => MessageKinds.OrdColorResult
    case GetModeCtrl => MessageKinds.GetModeCtrl
    case SendModeCtrl(_) => MessageKinds.SendModeCtrl
    case InitSingleMode => MessageKinds.InitSingleMode
    case SingleModeItems(_, _) => MessageKinds.SingleModeItems
  }

  /** The protocol gives each message its own id: two messages written
      with the same id are of the same kind, and an unmodelled message is
      determined by its id. */
  lemma {:induction false} IdOfInjective(p: Packet, q: Packet)
    requires IdOf(p).Some? && IdOf(p) == IdOf(q)
    ensures p.Unmodelled? <==> q.Unmodelled?
    ensures p.Unmodelled? ==> p == q
    ensures !p.Unmodelled? ==> KindOf(p) == KindOf(q)
  {
    if !p.Unmodelled? && !q.Unmodelled? {
      MessageKinds.IdInjective(KindOf(p), KindOf(q));
    } else if !p.Unmodelled? {
      MessageKinds.KindOfIdInverts(KindOf(p));
    } else if !q.Unmodelled? {
      MessageKinds.KindOfIdInverts(KindOf(q));
    }
  }

  /** `EntirePacket`: a header and the body its id selects. */
  datatype EntirePacket = EntirePacket(header: PacketHeader, packet: Packet)
}
