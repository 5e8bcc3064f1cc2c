/** The C API's registry: one interpreter per device uid, and the per-uid
    entry points that look a uid up and forward to its interpreter. The
    shared/exclusive lock around the map is not modelled. */
module Registry {
  import opened Common
  import opened Blobs
  import opened Chirp
  import opened Interpreter

  type Uid = u32

  type Sessions = map<Uid, Session>

  predicate AllValid(reg: Sessions)
  {
    forall u :: u in reg ==> Valid(reg[u])
  }

  /** What an entry point returns: the registry afterwards, the return value
      and anything written through the caller's output pointers. */
  datatype Outcome<T> = Outcome(registry: Sessions, code: int, out: T)

  /** Closes every registered interpreter and empties the map. The closed
      interpreters are returned so that what happened to them can be stated. */
  datatype Closed = Closed(registry: Sessions, closed: map<Uid, Session>)

  function CloseAll(reg: Sessions): (r: Closed)
    ensures r.registry == map[]
    ensures r.closed.Keys == reg.Keys
    ensures forall u :: u in r.closed ==> !r.closed[u].running && r.closed[u].blocks == reg[u].blocks
    ensures reg == map[] ==> r.closed == map[]
  {
    Closed(map[], map u | u in reg :: Close(reg[u]))
  }

  /** Reads the uid's oldest blocks into the caller's array. */
  function PixyGetBlocks(reg: Sessions, uid: Uid, maxBlocks: u16, destination: bool): (r: Outcome<seq<Block>>)
    ensures uid !in reg ==> r == Outcome(reg, UnknownUid, [])
    ensures uid in reg && !destination ==> r == Outcome(reg, ErrorInvalidParameter, [])
    ensures uid in reg && destination ==>
              && r.registry == reg[uid := reg[uid].(blocksAreNew := false)]
              && 0 <= r.code <= maxBlocks && r.code <= |reg[uid].blocks|
              && r.out == reg[uid].blocks[..r.code]
    ensures uid in reg && destination ==>
              r.code == if maxBlocks < |reg[uid].blocks| then maxBlocks else |reg[uid].blocks|
  {
    if uid !in reg then Outcome(reg, UnknownUid, [])
    else
      var d := GetBlocks(reg[uid], maxBlocks, destination);
      Outcome(reg[uid := d.session], d.code, d.copied)
  }

  function PixyBlocksAreNew(reg: Sessions, uid: Uid): (r: int)
    ensures uid !in reg ==> r == UnknownUid
    ensures uid in reg ==> (r == 1 <==> reg[uid].blocksAreNew) && (r == 0 <==> !reg[uid].blocksAreNew)
  {
    if uid !in reg then UnknownUid else BlocksAreNew(reg[uid])
  }

  function PixyCamUpdateFrame(reg: Sessions, uid: Uid, e: Engine): (r: Outcome<()>)
    ensures uid !in reg ==> r == Outcome(reg, UnknownUid, ())
    ensures uid in reg ==>
              var q := UpdateFrame(reg[uid], e);
              r == Outcome(reg[uid := q.session], q.code, ())
  {
    if uid !in reg then Outcome(reg, UnknownUid, ())
    else
      var q := UpdateFrame(reg[uid], e);
      Outcome(reg[uid := q.session], q.code, ())
  }

  /** Copies the uid's frame buffer out and returns 0. */
  function PixyCamGetFrame(reg: Sessions, uid: Uid): (r: Outcome<Option<seq<bv8>>>)
    ensures r.registry == reg
    ensures uid !in reg ==> r.code == UnknownUid && r.out == None
    ensures uid in reg ==> r.code == 0 && r.out == Some(reg[uid].frame)
    ensures uid in reg && AllValid(reg) ==> |r.out.value| == FrameBytes(reg[uid].cfg)
  {
    if uid !in reg then Outcome(reg, UnknownUid, None)
    else Outcome(reg, 0, Some(GetFrame(reg[uid])))
  }

  function PixyCamResetFrameWait(reg: Sessions, uid: Uid): (r: Outcome<()>)
    ensures uid !in reg ==> r == Outcome(reg, UnknownUid, ())
    ensures uid in reg ==> r.code == 0 && r.registry == reg[uid := ResetFrameWait(reg[uid])]
  {
    if uid !in reg then Outcome(reg, UnknownUid, ())
    else Outcome(reg[uid := ResetFrameWait(reg[uid])], 0, ())
  }

  /** Runs a named command on the uid's interpreter. `e` stands for that
      interpreter's engine. */
  function PixyCommand(reg: Sessions, uid: Uid, name: string, args: seq<Arg>, e: Engine): (r: Outcome<Option<Reply>>)
    ensures uid !in reg ==> r == Outcome(reg, UnknownUid, None)
    ensures uid in reg ==>
              var c := SendCommand(reg[uid], name, args, e);
              r == Outcome(reg[uid := c.session], c.code, c.reply)
    ensures r.out.Some? ==> r.code == r.out.value.status
    ensures r.out.None? ==> r.code < 0
  {
    if uid !in reg then Outcome(reg, UnknownUid, None)
    else
      var c := SendCommand(reg[uid], name, args, e);
      Outcome(reg[uid := c.session], c.code, c.reply)
  }

  /** Every per-uid entry point leaves the set of registered uids and every
      other uid's interpreter as they were. */
  lemma OthersUntouched(reg: Sessions, uid: Uid, other: Uid, maxBlocks: u16, destination: bool,
                        name: string, args: seq<Arg>, e: Engine)
    requires other != uid
    ensures var r := PixyGetBlocks(reg, uid, maxBlocks, destination).registry;
            r.Keys == reg.Keys && (other in reg ==> r[other] == reg[other])
    ensures var r := PixyCamUpdateFrame(reg, uid, e).registry;
            r.Keys == reg.Keys && (other in reg ==> r[other] == reg[other])
    ensures var r := PixyCamResetFrameWait(reg, uid).registry;
            r.Keys == reg.Keys && (other in reg ==> r[other] == reg[other])
    ensures var r := PixyCommand(reg, uid, name, args, e).registry;
            r.Keys == reg.Keys && (other in reg ==> r[other] == reg[other])
  {
  }

  /** For block reads and the freshness query, -1 means exactly that the uid
      is unknown: a registered interpreter never returns it. */
  lemma {:induction false} SentinelIsUnambiguous(reg: Sessions, uid: Uid, maxBlocks: u16, destination: bool)
    ensures PixyGetBlocks(reg, uid, maxBlocks, destination).code == UnknownUid <==> uid !in reg
    ensures PixyBlocksAreNew(reg, uid) == UnknownUid <==> uid !in reg
  {
    if uid in reg {
      var d := GetBlocks(reg[uid], maxBlocks, destination);
      assert d.code == ErrorInvalidParameter || d.code >= 0;
    }
  }

  /** For commands the sentinel is ambiguous: an engine that reports -1 (the
      USB I/O error code) makes a registered uid look unknown. */
  lemma CommandSentinelIsAmbiguous(reg: Sessions, uid: Uid, s: Session)
    requires s.running && reg == map[uid := s]
    ensures var e := Engine(_ => 0, (_, _) => Reply(ErrorUsbIo, 0, Version(0, 0, 0)), (_, _) => 0);
            uid in reg && PixyCommand(reg, uid, "led_set", [], e).code == UnknownUid
  {
  }
}
