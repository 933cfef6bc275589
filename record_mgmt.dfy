/** The handler of src/gs2/record_mgmt.rs: a player asks for a course
    record and gets back what storage found, or the default record with an
    error status when storage failed. Storage is not part of this model;
    its answer is a parameter. */
module RecordMgmt {
  import opened Wrappers
  import opened Packets
  import opened Records
  import opened GameServers

  /** The `SEND_CRECORD` answering a request for `uid`'s record on
      `course`, `season` and hole count `holeIdx`, given what storage
      found (`None` for a storage error). */
  function CRecordReply(uid: i32, course: i8, season: i8, holeIdx: i8, stored: Option<CRecord>): (p: Packet)
    ensures p.SendCRecord? && p.uid == uid && p.course == course && p.season == season && p.holeIdx == holeIdx
    ensures p.status == StatusOk <==> stored.Some?
    ensures stored.Some? ==> p.record == stored.value
    ensures stored.None? ==> p.record == DefaultCRecord()
  {
    match stored
    case Some(data) => SendCRecord(uid, course, season, holeIdx, data, StatusOk)
    case None => SendCRecord(uid, course, season, holeIdx, DefaultCRecord(), StatusErr)
  }

  /** The record a reply carries reads back from its fields: the one
      storage found when it fits the codec's widths, and otherwise the
      default record. */
  lemma {:induction false} CRecordReplyReadsBack(uid: i32, course: i8, season: i8, holeIdx: i8, stored: Option<CRecord>)
    requires stored.Some? ==> |stored.value.unkArray| == 18 && CRecordFits(stored.value)
    ensures var r := CRecordReply(uid, course, season, holeIdx, stored).record;
      ReadCRecord(WriteCRecord(r)) == Ok(r)
  {
    if stored.Some? {
      CRecordRoundTrip(stored.value);
    } else {
      DefaultCRecordRoundTrip();
    }
  }

  /** `handle_get_c_record`: the reply goes to the asking player with the
      request's pid, and nothing else changes. */
  method HandleGetCRecord(gs: GameServer, pid: i16, who: nat, uid: i32, course: i8, season: i8, holeIdx: i8,
                          stored: Option<CRecord>)
    requires gs.Valid() && who < |gs.conns|
    modifies gs`conns
    ensures gs.Valid()
    ensures gs.conns == Deliver(old(gs.conns), who, Queued(Some(pid), CRecordReply(uid, course, season, holeIdx, stored)))
  {
    gs.WriteWithPid(who, CRecordReply(uid, course, season, holeIdx, stored), pid);
  }
}
