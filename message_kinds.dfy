/** The kinds of message the protocol lists (src/packets/mod.rs) that this
    model gives a constructor of their own, and the id each is written
    with. Reading a header, the id selects the kind back. */
module MessageKinds {
  import opened Wrappers

  datatype Kind =
    | SendIdPass
    | AckIdPass
    | ReqGmsvList
    | SendGmsvData
    | AckGmsvList
    | AckIdPassG
    | ReqChgMode
    | AckChgMode
    | GetLobbyNum
    | SendLobbyNum
    | GetLobbyData
    | SendLobbyData
    | ReqEnterLobby
    | AckEnterLobby
    | ReqMakeRoom
    | AckMakeRoom
    | GetRooms
    | RoomEntry
    | ReqEnterRoom
    | AckEnterRoom
    | ReqUList
    | SendUList
    | AckUListR
    | SendUStat
    | ReqGameStart
    | OrdGameStart
    | AckGameStart
    | ClientCrClub
    | SendCrClub
    | ClientDirection
    | SendDirection
    | ClientShot
    | SendShot
    | ReqCRecord
    | SendCRecord
    | ClientLoadStat
    | SendLoadStat
    | ClientLoadStat2
    | SendLoadStat2
    | ClientBallPos
    | SendBallPos
    | ClientStopBallPos
    | SendStopBallPos
    | ClientPCommand
    | SendPCommand
    | ReqAppear
    | SendAppear
    | ReqUListL
    | SendUListL
    | GetSellItems
    | SendSellItemList
    | GetSalonItems
    | SendSalonItemList
    | ReqBuyItem
    | AckBuyItem
    | GetMoney
    | RepMoney
    | SetFirstCharacterAppearance
    | AckFirstCharacterAppearance
    | ReqChrData
    | SendChrData
    | GetChrData
    | ReqChgAppear
    | AckChgAppear
    | SetPlayerName
    | AckSetCharacterName
    | GetInventory
    | SendInventory
    | GetGolfbag
    | SendGolfbag
    | GetCurrChrUid
    | SendCrChrUid
    | ReqChgChrParam
    | AckChgChrParam
    | ReqUData
    | SendUData
    | ChgHoldbox
    | AckChgHoldbox
    | OrdColorResult
    | GetModeCtrl
    | SendModeCtrl
    | InitSingleMode
    | SingleModeItems

  /** The `#[deku(id = ...)]` of each kind. */
  function Id(k: Kind): i16 {
    match k
    case SendIdPass => 1
    case AckIdPass => 2
    case ReqGmsvList => 3
    case SendGmsvData => 4
    case AckGmsvList => 5
    case AckIdPassG => 7
    case ReqChgMode => 8
    case AckChgMode => 9
    case GetLobbyNum => 10
    case SendLobbyNum => 11
    case GetLobbyData => 12
    case SendLobbyData => 13
    case ReqEnterLobby => 14
    case AckEnterLobby => 15
    case ReqMakeRoom => 16
    case AckMakeRoom => 17
    case GetRooms => 18
    case RoomEntry => 19
    case ReqEnterRoom => 20
    case AckEnterRoom => 21
    case ReqUList => 22
    case SendUList => 23
    case AckUListR => 307
    case SendUStat => 26
    case ReqGameStart => 31
    case OrdGameStart => 32
    case AckGameStart => 187
    case ClientCrClub => 33
    case SendCrClub => 34
    case ClientDirection => 35
    case SendDirection => 36
    case ClientShot => 37
    case SendShot => 38
    case ReqCRecord => 42
    case SendCRecord => 43
    case ClientLoadStat => 44
    case SendLoadStat => 45
    case ClientLoadStat2 => 185
    case SendLoadStat2 => 186
    case ClientBallPos => 46
    case SendBallPos => 47
    case ClientStopBallPos => 234
    case SendStopBallPos => 235
    case ClientPCommand => 135
    case SendPCommand => 136
    case ReqAppear => 83
    case SendAppear => 84
    case ReqUListL => 87
    case SendUListL => 88
    case GetSellItems => 89
    case SendSellItemList => 90
    case GetSalonItems => 166
    case SendSalonItemList => 167
    case ReqBuyItem => 91
    case AckBuyItem => 92
    case GetMoney => 93
    case RepMoney => 94
    case SetFirstCharacterAppearance => 95
    case AckFirstCharacterAppearance => 96
    case ReqChrData => 100
    case SendChrData => 101
    case GetChrData => 102
    case ReqChgAppear => 103
    case AckChgAppear => 104
    case SetPlayerName => 105
    case AckSetCharacterName => 106
    case GetInventory => 131
    case SendInventory => 132
    case GetGolfbag => 133
    case SendGolfbag => 134
    case GetCurrChrUid => 137
    case SendCrChrUid => 139
    case ReqChgChrParam => 145
    case AckChgChrParam => 146
    case ReqUData => 180
    case SendUData => 181
    case ChgHoldbox => 189
    case AckChgHoldbox => 190
    case OrdColorResult => 236
    case GetModeCtrl => 268
    case SendModeCtrl => 269
    case InitSingleMode => 274
    case SingleModeItems => 275
  }

  /** Reading a header: the kind an id selects, or `None` for an id with no
      kind of its own here. */
  function KindOfId(id: int): Option<Kind> {
    match id
    case 1 => Some(SendIdPass)
    case 2 => Some(AckIdPass)
    case 3 => Some(ReqGmsvList)
    case 4 => Some(SendGmsvData)
    case 5 => Some(AckGmsvList)
    case 7 => Some(AckIdPassG)
    case 8 => Some(ReqChgMode)
    case 9 => Some(AckChgMode)
    case 10 => Some(GetLobbyNum)
    case 11 => Some(SendLobbyNum)
    case 12 => Some(GetLobbyData)
    case 13 => Some(SendLobbyData)
    case 14 => Some(ReqEnterLobby)
    case 15 => Some(AckEnterLobby)
    case 16 => Some(ReqMakeRoom)
    case 17 => Some(AckMakeRoom)
    case 18 => Some(GetRooms)
    case 19 => Some(RoomEntry)
    case 20 => Some(ReqEnterRoom)
    case 21 => Some(AckEnterRoom)
    case 22 => Some(ReqUList)
    case 23 => Some(SendUList)
    case 26 => Some(SendUStat)
    case 31 => Some(ReqGameStart)
    case 32 => Some(OrdGameStart)
    case 33 => Some(ClientCrClub)
    case 34 => Some(SendCrClub)
    case 35 => Some(ClientDirection)
    case 36 => Some(SendDirection)
    case 37 => Some(ClientShot)
    case 38 => Some(SendShot)
    case 42 => Some(ReqCRecord)
    case 43 => Some(SendCRecord)
    case 44 => Some(ClientLoadStat)
    case 45 => Some(SendLoadStat)
    case 46 => Some(ClientBallPos)
    case 47 => Some(SendBallPos)
    case 83 => Some(ReqAppear)
    case 84 => Some(SendAppear)
    case 87 => Some(ReqUListL)
    case 88 => Some(SendUListL)
    case 89 => Some(GetSellItems)
    case 90 => Some(SendSellItemList)
    case 91 => Some(ReqBuyItem)
    case 92 => Some(AckBuyItem)
    case 93 => Some(GetMoney)
    case 94 => Some(RepMoney)
    case 95 => Some(SetFirstCharacterAppearance)
    case 96 => Some(AckFirstCharacterAppearance)
    case 100 => Some(ReqChrData)
    case 101 => Some(SendChrData)
    case 102 => Some(GetChrData)
    case 103 => Some(ReqChgAppear)
    case 104 => Some(AckChgAppear)
    case 105 => Some(SetPlayerName)
    case 106 => Some(AckSetCharacterName)
    case 131 => Some(GetInventory)
    case 132 => Some(SendInventory)
    case 133 => Some(GetGolfbag)
    case 134 => Some(SendGolfbag)
    case 135 => Some(ClientPCommand)
    case 136 => Some(SendPCommand)
    case 137 => Some(GetCurrChrUid)
    case 139 => Some(SendCrChrUid)
    case 145 => Some(ReqChgChrParam)
    case 146 => Some(AckChgChrParam)
    case 166 => Some(GetSalonItems)
    case 167 => Some(SendSalonItemList)
    case 180 => Some(ReqUData)
    case 181 => Some(SendUData)
    case 185 => Some(ClientLoadStat2)
    case 186 => Some(SendLoadStat2)
    case 187 => Some(AckGameStart)
    case 189 => Some(ChgHoldbox)
    case 190 => Some(AckChgHoldbox)
    case 234 => Some(ClientStopBallPos)
    case 235 => Some(SendStopBallPos)
    case 236 => Some(OrdColorResult)
    case 268 => Some(GetModeCtrl)
    case 269 => Some(SendModeCtrl)
    case 274 => Some(InitSingleMode)
    case 275 => Some(SingleModeItems)
    case 307 => Some(AckUListR)
    case _ => None
  }

  /** A kind's id reads back as that kind. */
  lemma KindOfIdInverts(k: Kind)
    ensures KindOfId(Id(k)) == Some(k)
  {
    if Id(k) < 16 {
      KindOfIdIn1(k);
    } else if Id(k) < 32 {
      KindOfIdIn2(k);
    } else if Id(k) < 48 {
      KindOfIdIn3(k);
    } else if Id(k) < 100 {
      KindOfIdIn4(k);
    } else if Id(k) < 140 {
      KindOfIdIn5(k);
    } else if Id(k) < 190 {
      KindOfIdIn6(k);
    } else {
      KindOfIdIn7(k);
    }
  }

  /** The same, one range of ids at a time. */
  lemma KindOfIdIn1(k: Kind)
    requires 0 <= Id(k) < 16
    ensures KindOfId(Id(k)) == Some(k)
  {
  }

  lemma KindOfIdIn2(k: Kind)
    requires 16 <= Id(k) < 32
    ensures KindOfId(Id(k)) == Some(k)
  {
  }

  lemma KindOfIdIn3(k: Kind)
    requires 32 <= Id(k) < 48
    ensures KindOfId(Id(k)) == Some(k)
  {
  }

  lemma KindOfIdIn4(k: Kind)
    requires 48 <= Id(k) < 100
    ensures KindOfId(Id(k)) == Some(k)
  {
  }

  lemma KindOfIdIn5(k: Kind)
    requires 100 <= Id(k) < 140
    ensures KindOfId(Id(k)) == Some(k)
  {
  }

  lemma KindOfIdIn6(k: Kind)
    requires 140 <= Id(k) < 190
    ensures KindOfId(Id(k)) == Some(k)
  {
  }

  lemma KindOfIdIn7(k: Kind)
    requires 190 <= Id(k) < 32768
    ensures KindOfId(Id(k)) == Some(k)
  {
  }

  /** No two kinds share an id. */
  lemma {:induction false} IdInjective(k: Kind, l: Kind)
    requires Id(k) == Id(l)
    ensures k == l
  {
    KindOfIdInverts(k);
    KindOfIdInverts(l);
  }
}
