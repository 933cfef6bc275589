/** The character handlers of src/gs2/chara_mgmt.rs: creating an account's
    first character, fetching character data, the active character's looks
    and its uid, and changing a character's looks or parameters.

    A player's characters are a list of (chr_uid, character) pairs that
    every handler searches front to back for the first pair with the
    wanted uid (`ChrIndex`). Writes of characters and account data to
    storage are left out: the source ignores their results. */
module CharaMgmt {
  import opened Wrappers
  import opened Packets
  import opened Items
  import opened Ranks
  import opened Appearances
  import opened Characters
  import opened GameServers

  /** The index of the first character with uid `chrUid`, or -1. */
  function ChrIndex(chars: seq<(i32, Character)>, chrUid: i32): (k: int)
    ensures -1 <= k < |chars|
    ensures k == -1 <==> forall i :: 0 <= i < |chars| ==> chars[i].0 != chrUid
    ensures k >= 0 ==> chars[k].0 == chrUid && forall i :: 0 <= i < k ==> chars[i].0 != chrUid
  {
    if chars == [] then -1
    else
      var n := |chars| - 1;
      var k := ChrIndex(chars[..n], chrUid);
      if k >= 0 then k else if chars[n].0 == chrUid then n else -1
  }

  /** The search loop every handler here runs over a character list. */
  method FindChr(chars: seq<(i32, Character)>, chrUid: i32) returns (k: int)
    ensures k == ChrIndex(chars, chrUid)
  {
    k := 0;
    while k < |chars| && chars[k].0 != chrUid
      invariant 0 <= k <= |chars|
      invariant forall i :: 0 <= i < k ==> chars[i].0 != chrUid
    {
      k := k + 1;
    }
    if k == |chars| {
      k := -1;
    }
  }

  /** A character appended behind the others keeps every earlier search
      result and is found when no earlier character has its uid. */
  lemma {:induction false} ChrIndexSnoc(chars: seq<(i32, Character)>, x: (i32, Character), chrUid: i32)
    ensures ChrIndex(chars + [x], chrUid) ==
      if ChrIndex(chars, chrUid) >= 0 then ChrIndex(chars, chrUid)
      else if x.0 == chrUid then |chars| else -1
  {
    assert (chars + [x])[..|chars|] == chars;
  }

  /** The looks of a player's active character (the first one whose uid is
      the account's default), if there is one. */
  function ActiveAppearance(p: Player): Option<Appearance> {
    var k := ChrIndex(p.characters, p.user.defaultChrUid);
    if k < 0 then None else Some(p.characters[k].1.appearance)
  }

  /** A player after their first character, with uid `chrUid`, was made:
      it is appended to their characters and becomes the default. */
  function WithFirstCharacter(p: Player, chrUid: i32, appear: Appearance): Player {
    p.(user := p.user.(defaultChrUid := chrUid),
       characters := p.characters + [(chrUid, NewCharacter(appear))])
  }

  /** After the first character is made under a fresh uid, the active
      looks are the ones asked for, and a further request is refused
      unless storage answered with the uid -1. */
  lemma FirstCharacterActive(p: Player, chrUid: i32, appear: Appearance)
    requires ChrIndex(p.characters, chrUid) < 0
    ensures var q := WithFirstCharacter(p, chrUid, appear);
      ActiveAppearance(q) == Some(appear)
      && ChrIndex(q.characters, chrUid) == |p.characters|
      && (q.user.defaultChrUid != -1 <==> chrUid != -1)
  {
    ChrIndexSnoc(p.characters, (chrUid, NewCharacter(appear)), chrUid);
  }

  /** `handle_create_first_character`: nothing when the account already
      has a default character. Otherwise `created` is what storage
      answers: the new character's uid, or `None` for an error. */
  method HandleCreateFirstCharacter(gs: GameServer, who: nat, appear: Appearance, created: Option<i32>)
    requires gs.Valid() && who < |gs.conns|
    modifies gs`conns
    ensures gs.Valid()
    ensures var p := old(gs.conns[who]);
      if p.user.defaultChrUid != -1 then gs.conns == old(gs.conns)
      else if created.None? then
        gs.conns == Deliver(old(gs.conns), who, Queued(None, AckFirstCharacterAppearance(StatusErr)))
      else
        gs.conns == Deliver(old(gs.conns)[who := WithFirstCharacter(p, created.value, appear)], who,
                            Queued(None, AckFirstCharacterAppearance(StatusOk)))
  {
    var p := gs.conns[who];
    if p.user.defaultChrUid != -1 {
      return;
    }
    match created {
      case Some(chrUid) =>
        var u := p.user.(defaultChrUid := chrUid);
        var p' := p.(user := u, characters := p.characters + [(chrUid, NewCharacter(appear))]);
        SameSeat(gs.conns, who, p');
        gs.conns := gs.conns[who := p'];
        gs.Write(who, AckFirstCharacterAppearance(StatusOk));
      case None =>
        gs.Write(who, AckFirstCharacterAppearance(StatusErr));
    }
  }

  /** The character data packet of one character of the player with cid
      `cid`. */
  function ChrDataReply(cid: i32, uid: i32, c: (i32, Character)): Packet {
    SendChrData(cid, uid, ToChrData(c.1, c.0))
  }

  /** What `handle_get_chrdata` sends: the data of every character, in
      order. */
  function ChrDataReplies(cid: i32, uid: i32, chars: seq<(i32, Character)>): (r: seq<Queued>)
    ensures |r| == |chars|
  {
    seq(|chars|, i requires 0 <= i < |chars| => Queued(None, ChrDataReply(cid, uid, chars[i])))
  }

  /** The reply to a request for one character is the entry of the full
      listing at the first character with that uid, and it carries that
      uid. */
  lemma ChrDataFromListing(cid: i32, uid: i32, chars: seq<(i32, Character)>, chrUid: i32)
    requires ChrIndex(chars, chrUid) >= 0
    ensures var k := ChrIndex(chars, chrUid);
      var d := ToChrData(chars[k].1, chrUid);
      SendChrData(cid, uid, d) == ChrDataReplies(cid, uid, chars)[k].packet
      && d.chrUid == chrUid && d.appearance == chars[k].1.appearance
  {
  }

  /** `handle_req_chrdata`: the data of the first character with uid
      `chrUid` of the player with cid `cid`, with the request's pid;
      nothing when that player or that character is unknown. */
  method HandleReqChrData(gs: GameServer, pid: i16, who: nat, cid: i32, chrUid: i32)
    requires gs.Valid() && who < |gs.conns|
    modifies gs`conns
    ensures gs.Valid()
    ensures if cid !in old(gs.connLookup) then gs.conns == old(gs.conns)
      else
        var v := old(gs.conns)[old(gs.connLookup)[cid]];
        var k := ChrIndex(v.characters, chrUid);
        if k < 0 then gs.conns == old(gs.conns)
        else gs.conns == Deliver(old(gs.conns), who,
                                 Queued(Some(pid), ChrDataReply(cid, v.uid, v.characters[k])))
  {
    if cid !in gs.connLookup {
      return;
    }
    var victim := gs.connLookup[cid];
    var uid := gs.conns[victim].uid;
    var chars := gs.conns[victim].characters;
    var i := 0;
    while i < |chars|
      invariant 0 <= i <= |chars|
      invariant forall j :: 0 <= j < i ==> chars[j].0 != chrUid
    {
      if chars[i].0 == chrUid {
        gs.WriteWithPid(who, SendChrData(cid, uid, ToChrData(chars[i].1, chrUid)), pid);
        return;
      }
      i := i + 1;
    }
  }

  /** `handle_get_chrdata`: the data of every character of the player with
      cid `cid`; nothing when that player is unknown. */
  method HandleGetChrData(gs: GameServer, who: nat, cid: i32)
    requires gs.Valid() && who < |gs.conns|
    modifies gs`conns
    ensures gs.Valid()
    ensures if cid !in old(gs.connLookup) then gs.conns == old(gs.conns)
      else
        var v := old(gs.conns)[old(gs.connLookup)[cid]];
        gs.conns == DeliverAll(old(gs.conns), who, ChrDataReplies(cid, v.uid, v.characters))
  {
    if cid !in gs.connLookup {
      return;
    }
    var victim := gs.connLookup[cid];
    var uid := gs.conns[victim].uid;
    var chars := gs.conns[victim].characters;
    ghost var all := ChrDataReplies(cid, uid, chars);
    assert DeliverAll(old(gs.conns), who, all[..0]) == old(gs.conns) by {
      assert old(gs.conns)[who].outbox + [] == old(gs.conns)[who].outbox;
    }
    var i := 0;
    while i < |chars|
      invariant 0 <= i <= |chars|
      invariant gs.conns == DeliverAll(old(gs.conns), who, all[..i])
    {
      gs.Write(who, ChrDataReply(cid, uid, chars[i]));
      DeliverAfterAll(old(gs.conns), who, all[..i], all[i]);
      assert all[..i] + [all[i]] == all[..i + 1];
      i := i + 1;
    }
    assert all[..i] == all;
  }

  /** `get_active_appearance`: the looks of the active character of the
      player with cid `cid`, with the request's pid; nothing when that
      player is unknown or has no active character. */
  method GetActiveAppearance(gs: GameServer, pid: i16, who: nat, cid: i32)
    requires gs.Valid() && who < |gs.conns|
    modifies gs`conns
    ensures gs.Valid()
    ensures if cid !in old(gs.connLookup) then gs.conns == old(gs.conns)
      else
        var looks := ActiveAppearance(old(gs.conns)[old(gs.connLookup)[cid]]);
        if looks.None? then gs.conns == old(gs.conns)
        else gs.conns == Deliver(old(gs.conns), who, Queued(Some(pid), SendAppear(cid, 0, looks.value)))
  {
    if cid !in gs.connLookup {
      return;
    }
    var v := gs.conns[gs.connLookup[cid]];
    var k := FindChr(v.characters, v.user.defaultChrUid);
    if k >= 0 {
      gs.WriteWithPid(who, SendAppear(cid, 0, v.characters[k].1.appearance), pid);
    }
  }

  /** `handle_get_curr_chr_uid`: the default character uid of the player
      with cid `cid`, with the request's pid; nothing when that player is
      unknown. */
  method HandleGetCurrChrUid(gs: GameServer, pid: i16, who: nat, cid: i32)
    requires gs.Valid() && who < |gs.conns|
    modifies gs`conns
    ensures gs.Valid()
    ensures if cid !in old(gs.connLookup) then gs.conns == old(gs.conns)
      else
        var v := old(gs.conns)[old(gs.connLookup)[cid]];
        gs.conns == Deliver(old(gs.conns), who, Queued(Some(pid), SendCrChrUid(cid, v.user.defaultChrUid)))
  {
    if cid !in gs.connLookup {
      return;
    }
    var v := gs.conns[gs.connLookup[cid]];
    gs.WriteWithPid(who, SendCrChrUid(cid, v.user.defaultChrUid), pid);
  }

  /** The character list with the `k`-th character's looks replaced. */
  function WithAppearance(chars: seq<(i32, Character)>, k: nat, appear: Appearance): seq<(i32, Character)>
    requires k < |chars|
  {
    chars[k := (chars[k].0, chars[k].1.(appearance := appear))]
  }

  /** Changing the looks of the first character with a uid changes exactly
      those looks: every uid stays, so every search finds what it found
      before, and when that character is the active one its new looks are
      the active looks. */
  lemma AppearanceChanged(p: Player, chrUid: i32, appear: Appearance, other: i32)
    requires ChrIndex(p.characters, chrUid) >= 0
    ensures var k := ChrIndex(p.characters, chrUid);
      var chars' := WithAppearance(p.characters, k, appear);
      |chars'| == |p.characters|
      && chars'[k].1 == p.characters[k].1.(appearance := appear)
      && (forall i :: 0 <= i < |chars'| && i != k ==> chars'[i] == p.characters[i])
      && ChrIndex(chars', other) == ChrIndex(p.characters, other)
      && (chrUid == p.user.defaultChrUid ==> ActiveAppearance(p.(characters := chars')) == Some(appear))
  {
    var k := ChrIndex(p.characters, chrUid);
    SameUids(p.characters, WithAppearance(p.characters, k, appear), other);
  }

  /** Two character lists with the same uids in the same order give the
      same search results. */
  lemma {:induction false} SameUids(a: seq<(i32, Character)>, b: seq<(i32, Character)>, chrUid: i32)
    requires |a| == |b| && forall i :: 0 <= i < |a| ==> a[i].0 == b[i].0
    ensures ChrIndex(a, chrUid) == ChrIndex(b, chrUid)
  {
    if a != [] {
      var n := |a| - 1;
      SameUids(a[..n], b[..n], chrUid);
    }
  }

  /** `handle_req_chg_appear`: a player may change only their own
      characters. For their own cid, the looks of the first character with
      uid `chrUid` are replaced, and the answer says whether it was found. */
  method HandleReqChgAppear(gs: GameServer, who: nat, cid: i32, chrUid: i32, appear: Appearance)
    requires gs.Valid() && who < |gs.conns|
    modifies gs`conns
    ensures gs.Valid()
    ensures var p := old(gs.conns[who]);
      var k := ChrIndex(p.characters, chrUid);
      if cid != p.cid then gs.conns == Deliver(old(gs.conns), who, Queued(None, AckChgAppear(StatusErr)))
      else if k < 0 then gs.conns == Deliver(old(gs.conns), who, Queued(None, AckChgAppear(StatusErr)))
      else gs.conns == Deliver(old(gs.conns)[who := p.(characters := WithAppearance(p.characters, k, appear))], who,
                               Queued(None, AckChgAppear(StatusOk)))
  {
    var p := gs.conns[who];
    if cid != p.cid {
      gs.Write(who, AckChgAppear(StatusErr));
      return;
    }
    var k := FindChr(p.characters, chrUid);
    if k >= 0 {
      var p' := p.(characters := WithAppearance(p.characters, k, appear));
      SameSeat(gs.conns, who, p');
      gs.conns := gs.conns[who := p'];
      gs.Write(who, AckChgAppear(StatusOk));
    } else {
      gs.Write(who, AckChgAppear(StatusErr));
    }
  }

  /** The character list with the `k`-th character's class cap, parameter
      settings, club, ball and caddie replaced. */
  function WithParams(chars: seq<(i32, Character)>, k: nat, cls: Class, params: seq<ParamTuple>,
                      club: Item, ball: Item, caddie: Item): seq<(i32, Character)>
    requires k < |chars|
  {
    var c := chars[k].1;
    chars[k := (chars[k].0, c.(classCap := cls, settings := params, club := club, ball := ball, caddie := caddie))]
  }

  /** A parameter change touches only the first character with the uid,
      and of it neither its experience nor its looks; every search finds
      what it found before. */
  lemma ParamsChanged(chars: seq<(i32, Character)>, chrUid: i32, cls: Class, params: seq<ParamTuple>,
                      club: Item, ball: Item, caddie: Item, other: i32)
    requires ChrIndex(chars, chrUid) >= 0
    ensures var k := ChrIndex(chars, chrUid);
      var chars' := WithParams(chars, k, cls, params, club, ball, caddie);
      var c, c' := chars[k].1, chars'[k].1;
      |chars'| == |chars|
      && c'.exp == c.exp && c'.appearance == c.appearance
      && c'.classCap == cls && c'.settings == params && c'.club == club && c'.ball == ball && c'.caddie == caddie
      && (forall i :: 0 <= i < |chars'| && i != k ==> chars'[i] == chars[i])
      && ChrIndex(chars', other) == ChrIndex(chars, other)
  {
    var k := ChrIndex(chars, chrUid);
    SameUids(chars, WithParams(chars, k, cls, params, club, ball, caddie), other);
  }

  /** `handle_req_chg_chr_param`: for the first character of the player
      with the packet's uid, the class cap, parameter settings, club, ball
      and caddie are replaced, and the answer says whether it was found.
      Any other packet makes the handler return an error. */
  method HandleReqChgChrParam(gs: GameServer, who: nat, packet: Packet) returns (out: Outcome)
    requires gs.Valid() && who < |gs.conns|
    modifies gs`conns
    ensures gs.Valid()
    ensures !packet.ReqChgChrParam? ==> out == Bailed && gs.conns == old(gs.conns)
    ensures packet.ReqChgChrParam? ==>
      var p := old(gs.conns[who]);
      var k := ChrIndex(p.characters, packet.chrUid);
      out == Done
      && if k < 0 then gs.conns == Deliver(old(gs.conns), who, Queued(None, AckChgChrParam(StatusErr)))
         else
           var chars' := WithParams(p.characters, k, packet.crClass, packet.params, packet.club, packet.ball, packet.caddie);
           gs.conns == Deliver(old(gs.conns)[who := p.(characters := chars')], who, Queued(None, AckChgChrParam(StatusOk)))
  {
    if !packet.ReqChgChrParam? {
      return Bailed;
    }
    var p := gs.conns[who];
    var k := FindChr(p.characters, packet.chrUid);
    if k >= 0 {
      var chars' := WithParams(p.characters, k, packet.crClass, packet.params, packet.club, packet.ball, packet.caddie);
      var p' := p.(characters := chars');
      SameSeat(gs.conns, who, p');
      gs.conns := gs.conns[who := p'];
      gs.Write(who, AckChgChrParam(StatusOk));
    } else {
      gs.Write(who, AckChgChrParam(StatusErr));
    }
    out := Done;
  }
}
