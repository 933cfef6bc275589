/** The game server's state (src/gs2/mod.rs): the connected players, the
    cid lookup, the lobbies and the two shop catalogues, with the invariant
    that ties them together, the writes to a player's outbound queue, and
    the operations of mod.rs that do not involve a lobby (`generate_cid`,
    `handle_login`). The handlers of the other files of src/gs2 are
    methods of the modules `LobbyMgmt`, `GameMgmt`, `ShopMgmt`, `UserMgmt`
    and `CharaMgmt` that take the server as a parameter, and `Dispatch`
    holds `remove_player`, `handle_change_mode` and the message loop.

    Each player's outbound channel is their `outbox`: a write appends the
    message, with no pid (`write`) or with the pid of the request it
    answers (`write_with_pid`). */
module GameServers {
  import opened Wrappers
  import opened Packets
  import opened Rooms
  import opened Users
  import opened Characters
  import Ranks
  import Shop
  import Bits

  /** A message queued for a player, and the pid it goes out with. */
  datatype Queued = Queued(pid: Option<i16>, packet: Packet)

  /** `Player`: a connected, authenticated player. */
  datatype Player = Player(
    cid: i32,
    uid: i32,
    name: string,
    user: User,
    characters: seq<(i32, Character)>,
    curLobby: i8,
    curRoom: i8,
    stat: Stat,
    mode: Mode,
    outbox: seq<Queued>)

  /** How a handler ends: `Done`; `Bailed`, where the source returns an
      error that the message loop only logs, keeping whatever the handler
      changed before; or `Panicked`, where an `unwrap`, a map index or an
      array index fails and the server's task dies. */
  datatype Outcome = Done | Bailed | Panicked

  /** `Player::make_udata`. */
  function MakeUData(p: Player): (u: UData)
    ensures u.cid == p.cid && u.uid == p.uid && u.name == p.name && u.chrUid == p.user.defaultChrUid
    ensures u.golfbag == p.user.golfbag && u.holdbox == p.user.holdbox
    ensures u.element == p.user.element && u.rank == p.user.rank
  {
    UData(p.cid, p.uid, p.user.defaultChrUid, p.user.golfbag, p.user.holdbox, p.name, p.user.element, p.user.rank)
  }

  /** `Player::make_ulist` and `make_ulist_l`: the status as its low 16
      bits, and the class of the player's rank. */
  function MakeUList(p: Player): (u: UList)
    ensures u.cid == p.cid && u.uid == p.uid && u.name == p.name
    ensures u.stat < 0x1_0000 && u.stat & 0xFFFF == p.stat & 0xFFFF
    ensures u.mode == p.mode && u.lobby == p.curLobby && u.room == p.curRoom
    ensures Ranks.ClassValue(u.pclass) == p.user.rank / 4
  {
    Ranks.RankClassIsQuarter(p.user.rank);
    UList(p.cid, p.uid, Bits.Mask(p.stat, 0xFFFF), p.mode, p.curLobby, p.curRoom,
      Ranks.RankClass(p.user.rank), p.user.element, p.name)
  }

  /** A player as the lobby bookkeeping sees them. */
  datatype Seat = Seat(cid: i32, mode: Mode, lobby: i8)

  function Roster(conns: seq<Player>): (r: seq<Seat>)
    ensures |r| == |conns|
    ensures forall i :: 0 <= i < |conns| ==> r[i] == Seat(conns[i].cid, conns[i].mode, conns[i].curLobby)
  {
    seq(|conns|, i requires 0 <= i < |conns| => Seat(conns[i].cid, conns[i].mode, conns[i].curLobby))
  }

  /** `conn_lookup` maps exactly the connected cids, each to its index. */
  ghost predicate LookupValid(roster: seq<Seat>, lookup: map<i32, int>) {
    (forall i :: 0 <= i < |roster| ==> roster[i].cid in lookup && lookup[roster[i].cid] == i)
    && (forall c :: c in lookup ==> 0 <= lookup[c] < |roster| && roster[lookup[c]].cid == c)
  }

  /** A player is in a lobby's member list exactly when their mode and
      `cur_lobby` name that lobby. */
  ghost predicate MembershipValid(roster: seq<Seat>, lookup: map<i32, int>, ls: Lobbies)
    requires LookupValid(roster, lookup)
  {
    (forall i :: 0 <= i < |roster| && roster[i].lobby >= 0 ==>
      LobbyAt(ls, roster[i].mode, roster[i].lobby).Some?
      && roster[i].cid in LobbyAt(ls, roster[i].mode, roster[i].lobby).value.members)
    && (forall m, n, c :: LobbyAt(ls, m, n).Some? && c in LobbyAt(ls, m, n).value.members ==>
      c in lookup && roster[lookup[c]].mode == m && roster[lookup[c]].lobby == n)
  }

  /** The invariant of the server: `next_cid` in its pool, the lookup
      valid, the lobbies well formed and their member lists in step with
      the players. */
  ghost predicate ServerValid(nextCid: int, roster: seq<Seat>, lookup: map<i32, int>, ls: Lobbies) {
    600 <= nextCid <= 999 && LookupValid(roster, lookup) && LobbiesWellFormed(ls)
    && MembershipValid(roster, lookup, ls)
  }

  /** A lobby member is a connected player. */
  lemma MemberIsConnected(roster: seq<Seat>, lookup: map<i32, int>, ls: Lobbies, mode: Mode, num: int, c: i32)
    requires LookupValid(roster, lookup) && MembershipValid(roster, lookup, ls)
    requires LobbyAt(ls, mode, num).Some? && c in LobbyAt(ls, mode, num).value.members
    ensures c in lookup && roster[lookup[c]] == Seat(c, mode, num)
  {
  }

  /** The player with `q` appended to their outbox. */
  function Sent(p: Player, q: Queued): Player {
    p.(outbox := p.outbox + [q])
  }

  /** A write to player `who`. */
  function Deliver(conns: seq<Player>, who: nat, q: Queued): (r: seq<Player>)
    requires who < |conns|
    ensures Roster(r) == Roster(conns)
  {
    conns[who := Sent(conns[who], q)]
  }

  /** Several writes to player `who`, in order. */
  function DeliverAll(conns: seq<Player>, who: nat, qs: seq<Queued>): (r: seq<Player>)
    requires who < |conns|
    ensures Roster(r) == Roster(conns)
  {
    conns[who := conns[who].(outbox := conns[who].outbox + qs)]
  }

  /** Helper: a write after several to the same player is one more of them
      (associativity of the outbox append). */
  lemma DeliverAfterAll(conns: seq<Player>, who: nat, qs: seq<Queued>, q: Queued)
    requires who < |conns|
    ensures Deliver(DeliverAll(conns, who, qs), who, q) == DeliverAll(conns, who, qs + [q])
  {
    assert conns[who].outbox + qs + [q] == conns[who].outbox + (qs + [q]);
  }

  /** Changing one player changes only their seat. */
  lemma RosterUpdate(conns: seq<Player>, who: nat, p: Player)
    requires who < |conns|
    ensures Roster(conns[who := p]) == Roster(conns)[who := Seat(p.cid, p.mode, p.curLobby)]
  {
  }

  /** Changing what a player's seat does not show (their room, their
      outbox) leaves the roster as it was. */
  lemma SameSeat(conns: seq<Player>, who: nat, p: Player)
    requires who < |conns| && p.cid == conns[who].cid && p.mode == conns[who].mode && p.curLobby == conns[who].curLobby
    ensures Roster(conns[who := p]) == Roster(conns)
  {
    RosterUpdate(conns, who, p);
  }

  /** Every member of a lobby is connected. */
  lemma MembersConnected(roster: seq<Seat>, lookup: map<i32, int>, ls: Lobbies, mode: Mode, num: int)
    requires LookupValid(roster, lookup) && MembershipValid(roster, lookup, ls)
    requires LobbyAt(ls, mode, num).Some?
    ensures forall c :: c in LobbyAt(ls, mode, num).value.members ==> c in lookup
  {
  }

  /** The loop the handlers share: write `q` to every cid of `cids` but
      `skip`, finding each through the lookup. `None` when a cid is not
      connected, where the source's `unwrap` or map index panics. */
  function Relayed(conns: seq<Player>, lookup: map<i32, int>, cids: seq<i32>, skip: Option<i32>, q: Queued)
    : (r: Option<seq<Player>>)
    ensures r.Some? ==> Roster(r.value) == Roster(conns)
  {
    if cids == [] then Some(conns)
    else
      match Relayed(conns, lookup, cids[..|cids| - 1], skip, q)
      case None => None
      case Some(cs) =>
        var c := cids[|cids| - 1];
        if skip == Some(c) then Some(cs)
        else if c !in lookup || !(0 <= lookup[c] < |cs|) then None
        else Some(Deliver(cs, lookup[c], q))
  }

  /** How many copies of the message the player with cid `c` gets. */
  function Hits(cids: seq<i32>, skip: Option<i32>, c: i32): nat {
    if skip == Some(c) then 0 else multiset(cids)[c]
  }

  lemma RepeatSnoc<T>(x: T, n: nat)
    ensures Repeat(x, n) + [x] == Repeat(x, n + 1)
  {
  }

  /** `p` after receiving `n` copies of `q`. */
  function Received(p: Player, q: Queued, n: nat): Player {
    p.(outbox := p.outbox + Repeat(q, n))
  }

  /** Every target but `skip` is connected. */
  ghost predicate TargetsConnected(lookup: map<i32, int>, cids: seq<i32>, skip: Option<i32>) {
    forall k :: 0 <= k < |cids| && skip != Some(cids[k]) ==> cids[k] in lookup
  }

  /** With a valid lookup, the relay fails exactly when some target is not
      connected. */
  lemma {:induction false} RelayedSomeIff(conns: seq<Player>, lookup: map<i32, int>, cids: seq<i32>, skip: Option<i32>, q: Queued)
    requires LookupValid(Roster(conns), lookup)
    ensures Relayed(conns, lookup, cids, skip, q).Some? <==> TargetsConnected(lookup, cids, skip)
  {
    if cids != [] {
      var n := |cids| - 1;
      var init, c := cids[..n], cids[n];
      RelayedSomeIff(conns, lookup, init, skip, q);
      if TargetsConnected(lookup, cids, skip) {
        forall k | 0 <= k < |init| && skip != Some(init[k]) ensures init[k] in lookup {
          assert cids[k] == init[k];
        }
      } else {
        var k :| 0 <= k < |cids| && skip != Some(cids[k]) && cids[k] !in lookup;
        if k < n {
          assert init[k] == cids[k];
        }
      }
    }
  }

  /** One more target adds one copy for its cid, unless it is `skip`. */
  lemma HitsSnoc(init: seq<i32>, c: i32, skip: Option<i32>, d: i32)
    ensures Hits(init + [c], skip, d) == Hits(init, skip, d) + (if skip != Some(d) && d == c then 1 else 0)
  {
    assert multiset(init + [c]) == multiset(init) + multiset{c};
  }

  /** One more write keeps the counts: the player `c` is looked up as gets
      one more copy, everyone else the same. */
  lemma DeliverCounts(conns: seq<Player>, lookup: map<i32, int>, cs: seq<Player>, init: seq<i32>, c: i32, skip: Option<i32>, q: Queued)
    requires LookupValid(Roster(conns), lookup) && |cs| == |conns|
    requires forall j :: 0 <= j < |conns| ==> cs[j] == Received(conns[j], q, Hits(init, skip, conns[j].cid))
    requires skip != Some(c) && c in lookup
    ensures var r := Deliver(cs, lookup[c], q);
      forall j :: 0 <= j < |conns| ==> r[j] == Received(conns[j], q, Hits(init + [c], skip, conns[j].cid))
  {
    var w := lookup[c];
    var r := Deliver(cs, w, q);
    forall j | 0 <= j < |conns| ensures r[j] == Received(conns[j], q, Hits(init + [c], skip, conns[j].cid)) {
      var d := conns[j].cid;
      assert Roster(conns)[j].cid == d;
      HitsSnoc(init, c, skip, d);
      if j == w {
        assert d == c;
        RepeatSnoc(q, Hits(init, skip, c));
        assert r[j] == Sent(cs[j], q);
      } else {
        assert d != c;
        assert r[j] == cs[j];
      }
    }
  }

  /** When the relay succeeds, every player gets one copy per time their
      cid is a target (none if they are `skip`), and nothing else
      changes. */
  lemma {:induction false} RelayedContents(conns: seq<Player>, lookup: map<i32, int>, cids: seq<i32>, skip: Option<i32>, q: Queued)
    requires LookupValid(Roster(conns), lookup)
    requires Relayed(conns, lookup, cids, skip, q).Some?
    ensures var r := Relayed(conns, lookup, cids, skip, q).value;
      |r| == |conns| && forall j :: 0 <= j < |conns| ==> r[j] == Received(conns[j], q, Hits(cids, skip, conns[j].cid))
  {
    if cids != [] {
      var n := |cids| - 1;
      var init, c := cids[..n], cids[n];
      assert cids == init + [c];
      RelayedContents(conns, lookup, init, skip, q);
      var cs := Relayed(conns, lookup, init, skip, q).value;
      if skip == Some(c) {
        assert Relayed(conns, lookup, cids, skip, q).value == cs;
        forall j | 0 <= j < |conns| ensures Hits(cids, skip, conns[j].cid) == Hits(init, skip, conns[j].cid) {
          HitsSnoc(init, c, skip, conns[j].cid);
        }
      } else {
        assert Relayed(conns, lookup, cids, skip, q).value == Deliver(cs, lookup[c], q);
        DeliverCounts(conns, lookup, cs, init, c, skip, q);
      }
    }
  }

  /** Once a prefix of the targets fails, the whole relay does. */
  lemma {:induction false} RelayedNoneExtends(conns: seq<Player>, lookup: map<i32, int>, cids: seq<i32>, i: nat, skip: Option<i32>, q: Queued)
    requires i <= |cids| && Relayed(conns, lookup, cids[..i], skip, q).None?
    ensures Relayed(conns, lookup, cids, skip, q).None?
  {
    if i == |cids| {
      assert cids[..i] == cids;
    } else {
      var n := |cids| - 1;
      assert cids[..n][..i] == cids[..i];
      RelayedNoneExtends(conns, lookup, cids[..n], i, skip, q);
    }
  }

  /** `Vec::swap_remove`: the last element takes the place of the removed
      one. */
  function SwapRemove<T>(s: seq<T>, i: nat): (r: seq<T>)
    requires i < |s|
    ensures |r| == |s| - 1
    ensures i < |r| ==> r[i] == s[|s| - 1]
    ensures forall j :: 0 <= j < |r| && j != i ==> r[j] == s[j]
  {
    if i == |s| - 1 then s[..i] else s[..|s| - 1][i := s[|s| - 1]]
  }

  /** The lookup after `remove_player` took out the player at `who`: the
      cid is gone, and the player moved into its place points there. */
  function LookupAfterRemove(lookup: map<i32, int>, roster: seq<Seat>, who: nat): map<i32, int>
    requires who < |roster|
  {
    var removed := lookup - {roster[who].cid};
    if who < |roster| - 1 then removed[roster[|roster| - 1].cid := who] else removed
  }

  /** Removing a player who is in no lobby keeps the invariant:
      `conn_lookup[conns[i].cid] == i` for every remaining player, and the
      removed cid is no longer looked up. */
  lemma SwapRemoveValid(roster: seq<Seat>, lookup: map<i32, int>, ls: Lobbies, who: nat)
    requires LookupValid(roster, lookup) && MembershipValid(roster, lookup, ls)
    requires who < |roster| && roster[who].lobby < 0
    ensures var r, l := SwapRemove(roster, who), LookupAfterRemove(lookup, roster, who);
      LookupValid(r, l) && MembershipValid(r, l, ls) && roster[who].cid !in l
  {
    var r, l := SwapRemove(roster, who), LookupAfterRemove(lookup, roster, who);
    var last := |roster| - 1;
    var gone := roster[who].cid;
    forall i | 0 <= i < |r| ensures r[i].cid in l && l[r[i].cid] == i {
      if i == who {
        assert r[i] == roster[last];
      } else {
        assert r[i] == roster[i];
        assert lookup[roster[i].cid] == i;
      }
    }
    forall c | c in l ensures 0 <= l[c] < |r| && r[l[c]].cid == c {
      if who < last && c == roster[last].cid {
      } else {
        assert c in lookup && c != gone;
        assert lookup[c] != who;
      }
    }
    forall m, n, c | LobbyAt(ls, m, n).Some? && c in LobbyAt(ls, m, n).value.members
      ensures c in l && r[l[c]].mode == m && r[l[c]].lobby == n
    {
      assert c in lookup && roster[lookup[c]].mode == m && roster[lookup[c]].lobby == n;
      assert c != gone;
    }
  }

  /** The cid after `c` in the pool 600..=999. */
  function NextCid(c: int): int {
    if c + 1 > 999 then 600 else c + 1
  }

  /** The `k`-th cid of the pool counting from `from`. */
  function PoolAt(from: int, k: nat): int {
    600 + (from - 600 + k) % 400
  }

  /** The first of `tries` cids from `from` on, in pool order, that the
      lookup does not hold. */
  function FreeCid(from: int, lookup: map<i32, int>, tries: nat): (r: Option<i32>)
    requires 600 <= from <= 999
    ensures r.Some? ==> 600 <= r.value <= 999 && r.value !in lookup
    decreases tries
  {
    if tries == 0 then None
    else if from !in lookup then Some(from)
    else FreeCid(NextCid(from), lookup, tries - 1)
  }

  /** Every cid of the pool is taken. */
  ghost predicate PoolFull(lookup: map<i32, int>) {
    forall c :: 600 <= c <= 999 ==> c in lookup
  }

  /** The search fails exactly when all of the cids it tries are taken. */
  lemma {:induction false} FreeCidNone(from: int, lookup: map<i32, int>, tries: nat)
    requires 600 <= from <= 999
    ensures FreeCid(from, lookup, tries).None? <==> forall k :: 0 <= k < tries ==> PoolAt(from, k) in lookup
    decreases tries
  {
    if tries > 0 {
      assert PoolAt(from, 0) == from;
      FreeCidNone(NextCid(from), lookup, tries - 1);
      forall k | 0 <= k < tries - 1 ensures PoolAt(NextCid(from), k) == PoolAt(from, k + 1) {
      }
      if forall k :: 0 <= k < tries - 1 ==> PoolAt(NextCid(from), k) in lookup {
        if from in lookup {
          forall k | 0 <= k < tries ensures PoolAt(from, k) in lookup {
            if k > 0 {
              assert PoolAt(from, k) == PoolAt(NextCid(from), k - 1);
            }
          }
        }
      }
    }
  }

  /** A full turn of the pool finds a free cid unless every cid is taken:
      `generate_cid` returns a cid the lookup does not hold, and loops for
      ever when all 400 are in use. */
  lemma FreeCidFullTurn(from: int, lookup: map<i32, int>)
    requires 600 <= from <= 999
    ensures FreeCid(from, lookup, 400).None? <==> PoolFull(lookup)
  {
    FreeCidNone(from, lookup, 400);
    if FreeCid(from, lookup, 400).None? {
      forall c | 600 <= c <= 999 ensures c in lookup {
        var k := if c >= from then c - from else c - from + 400;
        assert PoolAt(from, k) == c;
      }
    }
  }

  /** `unwrap_or_else`: the stored name, or `_` and the login name. */
  function DisplayName(stored: Option<string>, username: string): string {
    if stored.Some? then stored.value else "_" + username
  }

  /** The player `handle_login` adds: in no lobby or room, no status, mode
      None, with the profile and an empty colour result queued. */
  function NewPlayer(cid: i32, username: string, a: Account): (p: Player)
    ensures p.cid == cid && p.uid == a.uid && p.user == a.user && p.characters == a.characters
    ensures p.name == DisplayName(a.name, username)
    ensures p.curLobby == -1 && p.curRoom == -1 && p.stat == 0 && p.mode == NoMode
    ensures p.outbox == [Queued(None, AckIdPassG(MakeUData(p))),
                         Queued(None, OrdColorResult(NoElement, NoElement, 0, 0, 0, 0))]
  {
    var p := Player(cid, a.uid, DisplayName(a.name, username), a.user, a.characters, -1, -1, 0, NoMode, []);
    p.(outbox := [Queued(None, AckIdPassG(MakeUData(p))), Queued(None, OrdColorResult(NoElement, NoElement, 0, 0, 0, 0))])
  }

  /** Adding a player with a fresh cid who is in no lobby keeps the
      invariant. */
  lemma AddPlayerValid(roster: seq<Seat>, lookup: map<i32, int>, ls: Lobbies, s: Seat)
    requires LookupValid(roster, lookup) && MembershipValid(roster, lookup, ls)
    requires s.cid !in lookup && s.lobby < 0
    ensures LookupValid(roster + [s], lookup[s.cid := |roster|])
    ensures MembershipValid(roster + [s], lookup[s.cid := |roster|], ls)
  {
    var r, l := roster + [s], lookup[s.cid := |roster|];
    forall i | 0 <= i < |r| ensures r[i].cid in l && l[r[i].cid] == i {
      if i < |roster| {
        assert r[i] == roster[i];
      }
    }
    forall m, n, c | LobbyAt(ls, m, n).Some? && c in LobbyAt(ls, m, n).value.members
      ensures c in l && r[l[c]].mode == m && r[l[c]].lobby == n
    {
      assert c in lookup;
      assert r[lookup[c]] == roster[lookup[c]];
    }
  }

  /** Appending a player with a fresh cid who is in no lobby keeps the
      server's invariant. */
  lemma LoginKeepsValid(nextCid: int, conns: seq<Player>, lookup: map<i32, int>, ls: Lobbies, p: Player)
    requires ServerValid(nextCid, Roster(conns), lookup, ls)
    requires p.cid !in lookup && p.curLobby < 0
    ensures ServerValid(nextCid, Roster(conns + [p]), lookup[p.cid := |conns|], ls)
  {
    AddPlayerValid(Roster(conns), lookup, ls, Seat(p.cid, p.mode, p.curLobby));
    assert Roster(conns + [p]) == Roster(conns) + [Seat(p.cid, p.mode, p.curLobby)];
  }

  /** The answer `handle_login` gives the connection task; `LoginHung`
      where `generate_cid` would loop for ever. */
  datatype LoginResult = LoginSuccess(cid: i32) | LoginFail(result: AckIDPassResult) | LoginHung

  class GameServer {
    var nextCid: i32
    var conns: seq<Player>
    var connLookup: map<i32, int>
    var lobbies: Lobbies
    var shopItems: seq<Shop.SellItem>
    var salonItems: seq<Shop.SellItem>

    ghost predicate Valid()
      reads this
    {
      ServerValid(nextCid, Roster(conns), connLookup, lobbies)
    }

    /** The server `start` builds: cids from 600, nobody connected, the
        initial lobbies and the two catalogues. */
    constructor Start(shop: seq<Shop.SellItem>, salon: seq<Shop.SellItem>)
      ensures Valid()
      ensures nextCid == 600 && conns == [] && connLookup == map[] && lobbies == InitialLobbies
      ensures shopItems == shop && salonItems == salon
    {
      nextCid := 600;
      conns := [];
      connLookup := map[];
      lobbies := InitialLobbies;
      shopItems := shop;
      salonItems := salon;
      InitialLobbiesWellFormed();
    }

    /** Puts `p` in place of the player at `who`; `p` keeps the seat (cid,
        mode and lobby), so the invariant holds on. */
    method SetPlayer(who: nat, p: Player)
      requires Valid() && who < |conns|
      requires p.cid == conns[who].cid && p.mode == conns[who].mode && p.curLobby == conns[who].curLobby
      modifies this`conns
      ensures Valid() && conns == old(conns)[who := p]
    {
      SameSeat(conns, who, p);
      conns := conns[who := p];
    }

    /** `Player::write` to the player at `who`. */
    method Write(who: nat, packet: Packet)
      requires who < |conns|
      modifies this`conns
      ensures conns == Deliver(old(conns), who, Queued(None, packet))
    {
      conns := conns[who := Sent(conns[who], Queued(None, packet))];
    }

    /** `Player::write_with_pid` to the player at `who`. */
    method WriteWithPid(who: nat, packet: Packet, pid: i16)
      requires who < |conns|
      modifies this`conns
      ensures conns == Deliver(old(conns), who, Queued(Some(pid), packet))
    {
      conns := conns[who := Sent(conns[who], Queued(Some(pid), packet))];
    }

    /** The relay loop: `q` to every cid of `cids` but `skip`. `false` where
        the source panics on a cid that is not connected; the writes made
        before it stay. */
    method Relay(cids: seq<i32>, skip: Option<i32>, q: Queued) returns (ok: bool)
      modifies this`conns
      ensures Roster(conns) == Roster(old(conns))
      ensures ok <==> Relayed(old(conns), connLookup, cids, skip, q).Some?
      ensures ok ==> conns == Relayed(old(conns), connLookup, cids, skip, q).value
    {
      var i := 0;
      while i < |cids|
        invariant 0 <= i <= |cids|
        invariant Roster(conns) == Roster(old(conns))
        invariant Relayed(old(conns), connLookup, cids[..i], skip, q) == Some(conns)
      {
        assert cids[..i + 1][..i] == cids[..i];
        var c := cids[i];
        if skip != Some(c) {
          if c !in connLookup || !(0 <= connLookup[c] < |conns|) {
            RelayedNoneExtends(old(conns), connLookup, cids, i + 1, skip, q);
            return false;
          }
          conns := conns[connLookup[c] := Sent(conns[connLookup[c]], q)];
        }
        i := i + 1;
      }
      assert cids[..i] == cids;
      ok := true;
    }

    /** `GameServer::generate_cid`: takes `next_cid` and moves it on,
        wrapping from 999 to 600, until the cid taken is free. The source
        loops for ever when every cid is in use; here the search stops
        after one full turn of the pool and answers `None`. */
    method GenerateCid() returns (cid: Option<i32>)
      requires 600 <= nextCid <= 999
      modifies this`nextCid
      ensures cid == FreeCid(old(nextCid), connLookup, 400)
      ensures cid.Some? ==> nextCid == NextCid(cid.value)
      ensures 600 <= nextCid <= 999
    {
      var tries := 0;
      while tries < 400
        invariant 0 <= tries <= 400 && 600 <= nextCid <= 999
        invariant FreeCid(old(nextCid), connLookup, 400) == FreeCid(nextCid, connLookup, 400 - tries)
      {
        var c := nextCid;
        nextCid := NextCid(nextCid);
        if c !in connLookup {
          return Some(c);
        }
        tries := tries + 1;
      }
      cid := None;
    }

    /** The scan of `handle_login` for a player already logged in with
        `uid`. */
    method UidConnected(uid: i32) returns (found: bool)
      ensures found <==> exists i :: 0 <= i < |conns| && conns[i].uid == uid
    {
      var i := 0;
      while i < |conns|
        invariant 0 <= i <= |conns|
        invariant forall j :: 0 <= j < i ==> conns[j].uid != uid
      {
        if conns[i].uid == uid {
          return true;
        }
        i := i + 1;
      }
      found := false;
    }

    /** The second half of `handle_login`, once no player has the
        account's uid: a fresh cid, and the player appended under it. */
    method Admit(username: string, a: Account) returns (r: LoginResult)
      requires Valid()
      modifies this`nextCid, this`conns, this`connLookup
      ensures Valid()
      ensures match FreeCid(old(nextCid), old(connLookup), 400)
        case None => r == LoginHung && conns == old(conns) && connLookup == old(connLookup)
        case Some(cid) =>
          r == LoginSuccess(cid) && nextCid == NextCid(cid)
          && conns == old(conns) + [NewPlayer(cid, username, a)]
          && connLookup == old(connLookup)[cid := |old(conns)|]
    {
      var cid := GenerateCid();
      if cid.None? {
        return LoginHung;
      }
      var player := NewPlayer(cid.value, username, a);
      var conns', lookup' := conns + [player], connLookup[cid.value := |conns|];
      LoginKeepsValid(nextCid, conns, connLookup, lobbies, player);
      conns, connLookup := conns', lookup';
      r := LoginSuccess(cid.value);
    }

    /** `GameServer::handle_login`, given the account the store answers
        for the credentials (`Err` when it refuses them). A refused login
        is `IDError` and a uid already connected `MultiLoginError`, both
        with no change; otherwise the new player is appended and looked
        up under a fresh cid. */
    method HandleLogin(username: string, account: Result<Account, ()>) returns (r: LoginResult)
      requires Valid()
      modifies this
      ensures Valid()
      ensures lobbies == old(lobbies) && shopItems == old(shopItems) && salonItems == old(salonItems)
      ensures account.Err? ==>
        r == LoginFail(IDError) && conns == old(conns) && connLookup == old(connLookup) && nextCid == old(nextCid)
      ensures account.Ok? && (exists i :: 0 <= i < |old(conns)| && old(conns)[i].uid == account.value.uid) ==>
        r == LoginFail(MultiLoginError) && conns == old(conns) && connLookup == old(connLookup) && nextCid == old(nextCid)
      ensures account.Ok? && (forall i :: 0 <= i < |old(conns)| ==> old(conns)[i].uid != account.value.uid) ==>
        match FreeCid(old(nextCid), old(connLookup), 400)
        case None => r == LoginHung && conns == old(conns) && connLookup == old(connLookup)
        case Some(cid) =>
          r == LoginSuccess(cid) && nextCid == NextCid(cid)
          && conns == old(conns) + [NewPlayer(cid, username, account.value)]
          && connLookup == old(connLookup)[cid := |old(conns)|]
    {
      if account.Err? {
        return LoginFail(IDError);
      }
      var a := account.value;
      var connected := UidConnected(a.uid);
      if connected {
        return LoginFail(MultiLoginError);
      }
      r := Admit(username, a);
    }
  }

  /** A relay on a valid server: the server stays valid, and the relay
      completes exactly when every target is connected (the source panics
      on the first one that is not). */
  method Announce(gs: GameServer, cids: seq<i32>, skip: Option<i32>, q: Queued) returns (out: Outcome)
    requires gs.Valid()
    modifies gs`conns
    ensures gs.Valid() && out != Bailed
    ensures out == Done <==> TargetsConnected(gs.connLookup, cids, skip)
    ensures out == Done ==> Relayed(old(gs.conns), gs.connLookup, cids, skip, q) == Some(gs.conns)
  {
    RelayedSomeIff(gs.conns, gs.connLookup, cids, skip, q);
    var ok := gs.Relay(cids, skip, q);
    out := if ok then Done else Panicked;
  }
}
