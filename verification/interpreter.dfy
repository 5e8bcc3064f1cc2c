/** The per-device interpreter: one session's state and the transitions the
    foreground calls and the background service thread apply to it. The
    model is sequential; the locks that serialise these transitions in the
    library are not modelled. */
module Interpreter {
  import opened Common
  import opened Blobs
  import opened Chirp
  import BlockBuffer

  /** Sizes fixed by the library's headers: the block buffer capacity and the
      frame dimensions (one byte per pixel). */
  datatype Config = Config(capacity: nat, frameWidth: u16, frameHeight: u16)

  function FrameBytes(cfg: Config): nat
  {
    cfg.frameWidth * cfg.frameHeight
  }

  /** One interpreter. `frameProc` is the procedure id resolved for
      `cam_getFrame` at start-up; `procCache` maps the other procedure names
      resolved so far to their ids. */
  datatype Session = Session(
    cfg: Config,
    blocks: seq<Block>,
    blocksAreNew: bool,
    frame: seq<bv8>,
    waitingForFrame: bool,
    running: bool,
    closing: bool,
    procCache: map<string, int>,
    frameProc: int)

  /** The capacity invariant, and a frame buffer of the configured size. */
  predicate Valid(s: Session)
  {
    && 0 < s.cfg.capacity
    && |s.blocks| <= s.cfg.capacity
    && |s.frame| == FrameBytes(s.cfg)
  }

  /** Every cached procedure id is the one the engine resolves the name to. */
  predicate CacheFrom(s: Session, e: Engine)
  {
    forall n :: n in s.procCache ==> s.procCache[n] == e.getProc(n)
  }

  // ---------------------------------------------------------------------
  // Life cycle

  /** A freshly constructed interpreter: not running, not closing, no blocks.
      The constructor leaves the fresh flag and the frame bytes unset, so the
      model takes whatever they hold as parameters. */
  function New(cfg: Config, freshGarbage: bool, frameGarbage: seq<bv8>): (r: Session)
    requires 0 < cfg.capacity && |frameGarbage| == FrameBytes(cfg)
    ensures Valid(r) && !r.running && !r.closing
    ensures r.blocks == [] && r.procCache == map[]
  {
    Session(cfg, [], freshGarbage, frameGarbage, false, false, false, map[], -1)
  }

  /** Start-up: resolves `cam_getFrame` (without caching it and without
      checking the id), clears the frame wait and marks the service thread
      running. Start-up always reports success. */
  function Init(s: Session, e: Engine): (r: Session)
    requires Valid(s)
    ensures Valid(r) && r.running && !r.waitingForFrame
    ensures r.frameProc == e.getProc("cam_getFrame")
    ensures r.blocks == s.blocks && r.blocksAreNew == s.blocksAreNew
    ensures r.procCache == s.procCache && r.closing == s.closing
    ensures r.cfg == s.cfg && r.frame == s.frame
  {
    s.(frameProc := e.getProc("cam_getFrame"), running := true, waitingForFrame := false)
  }

  /** Raising the closing flag the service thread polls. */
  function RequestClose(s: Session): (r: Session)
    ensures r.closing && r == s.(closing := true)
  {
    s.(closing := true)
  }

  /** The service thread leaving its loop, which it does only once closing
      is requested: it marks the interpreter not running. */
  function ThreadExit(s: Session): (r: Session)
    requires s.closing
    ensures !r.running && r == s.(running := false)
  {
    s.(running := false)
  }

  /** Close: when the service thread is live, request its exit and wait for
      it; afterwards the interpreter is not running, so every later command
      or frame request fails with the not-running error. The buffers are left
      as they were. */
  function Close(s: Session): (r: Session)
    ensures !r.running
    ensures r.blocks == s.blocks && r.blocksAreNew == s.blocksAreNew
    ensures r.frame == s.frame && r.procCache == s.procCache
    ensures r.cfg == s.cfg && r.waitingForFrame == s.waitingForFrame && r.frameProc == s.frameProc
    ensures s.running ==> r.closing
  {
    if s.running then ThreadExit(RequestClose(s)) else s
  }

  // ---------------------------------------------------------------------
  // Foreground operations

  /** The outcome of a block read: the new state, the return value and the
      blocks copied to the caller's array. */
  datatype Drained = Drained(session: Session, code: int, copied: seq<Block>)

  /** Copies up to `maxBlocks` of the oldest blocks out. A negative maximum
      or a null destination is rejected with nothing changed; otherwise the
      fresh flag is cleared whatever was copied. The count is held in a
      16-bit variable. */
  function GetBlocks(s: Session, maxBlocks: int, destination: bool): (r: Drained)
    ensures maxBlocks < 0 || !destination ==>
              r.code == ErrorInvalidParameter && r.session == s && r.copied == []
    ensures 0 <= maxBlocks && destination ==>
              && r.session == s.(blocksAreNew := false)
              && r.code == |r.copied| <= |s.blocks|
              && r.copied == s.blocks[..|r.copied|]
    ensures 0 <= maxBlocks && destination && (|s.blocks| < 0x1_0000 || maxBlocks < 0x1_0000) ==>
              |r.copied| == if maxBlocks < |s.blocks| then maxBlocks else |s.blocks|
  {
    if maxBlocks < 0 || !destination then
      Drained(s, ErrorInvalidParameter, [])
    else
      var n := ToU16(if maxBlocks >= |s.blocks| then |s.blocks| else maxBlocks);
      Drained(s.(blocksAreNew := false), n, s.blocks[..n])
  }

  /** Whether blocks arrived since the last read: 1 or 0. */
  function BlocksAreNew(s: Session): (r: int)
    ensures r == 1 <==> s.blocksAreNew
    ensures r == 0 <==> !s.blocksAreNew
  {
    if s.blocksAreNew then 1 else 0
  }

  /** The arguments of the frame request: render mode 0x21 and the window
      from (0, 0) of the configured width and height. */
  function FrameRequestArgs(cfg: Config): seq<Arg>
  {
    [UInt8(0x21), UInt16(0), UInt16(0), UInt16(cfg.frameWidth), UInt16(cfg.frameHeight)]
  }

  datatype Requested = Requested(session: Session, code: int)

  /** Asks for a frame asynchronously. Fails when not running, or when an
      earlier request is still waiting; otherwise returns the engine's status
      and starts waiting only when that status is 0. */
  function UpdateFrame(s: Session, e: Engine): (r: Requested)
    ensures !s.running ==> r.code == ErrorNotRunning && r.session == s
    ensures s.running && s.waitingForFrame ==> r.code == ErrorFramePending && r.session == s
    ensures s.running && !s.waitingForFrame ==>
              && r.code == e.async(s.frameProc, FrameRequestArgs(s.cfg))
              && r.session == s.(waitingForFrame := r.code == 0)
  {
    if !s.running then
      Requested(s, ErrorNotRunning)
    else if s.waitingForFrame then
      Requested(s, ErrorFramePending)
    else
      var status := e.async(s.frameProc, FrameRequestArgs(s.cfg));
      if status == 0 then Requested(s.(waitingForFrame := true), status)
      else Requested(s, status)
  }

  /** Forgets an outstanding frame request, unconditionally. */
  function ResetFrameWait(s: Session): (r: Session)
    ensures !r.waitingForFrame && r == s.(waitingForFrame := false)
  {
    s.(waitingForFrame := false)
  }

  /** The frame buffer as last written, however old it is. */
  function GetFrame(s: Session): (r: seq<bv8>)
    ensures Valid(s) ==> |r| == FrameBytes(s.cfg)
  {
    s.frame
  }

  /** The outcome of a synchronous command: the new state, the return value,
      the engine's reply when the call was made, and whether the procedure
      name had to be resolved. */
  datatype Commanded = Commanded(session: Session, code: int, reply: Option<Reply>, lookedUp: bool)

  /** Calls a named procedure synchronously. A cached name is not resolved
      again; an unresolvable name is an invalid command and is not cached; a
      resolved name is cached before the call. The call's status is returned
      unchanged. */
  function SendCommand(s: Session, name: string, args: seq<Arg>, e: Engine): (r: Commanded)
    ensures !s.running ==> r == Commanded(s, ErrorNotRunning, None, false)
    ensures s.running && name in s.procCache ==>
              && !r.lookedUp && r.session == s
              && r.reply == Some(e.sync(s.procCache[name], args))
    ensures s.running && name !in s.procCache && e.getProc(name) < 0 ==>
              r == Commanded(s, ErrorInvalidCommand, None, true)
    ensures s.running && name !in s.procCache && e.getProc(name) >= 0 ==>
              && r.lookedUp
              && r.session == s.(procCache := s.procCache[name := e.getProc(name)])
              && r.reply == Some(e.sync(e.getProc(name), args))
    ensures r.reply.Some? ==> r.code == r.reply.value.status
    ensures r.reply.None? ==> r.code < 0
  {
    if !s.running then
      Commanded(s, ErrorNotRunning, None, false)
    else if name in s.procCache then
      var reply := e.sync(s.procCache[name], args);
      Commanded(s, reply.status, Some(reply), false)
    else
      var id := e.getProc(name);
      if id < 0 then
        Commanded(s, ErrorInvalidCommand, None, true)
      else
        var reply := e.sync(id, args);
        Commanded(s.(procCache := s.procCache[name := id]), reply.status, Some(reply), true)
  }

  // ---------------------------------------------------------------------
  // Asynchronous messages

  /** A frame: stops waiting and copies the configured number of pixel bytes
      into the frame buffer. */
  function InterpretBa81(s: Session, a: HintArgs): (r: Session)
    requires Valid(s) && |a.pixels| >= FrameBytes(s.cfg)
    ensures Valid(r) && !r.waitingForFrame
    ensures r.frame == a.pixels[..FrameBytes(s.cfg)]
    ensures r.blocks == s.blocks && r.blocksAreNew == s.blocksAreNew
    ensures r == s.(waitingForFrame := false, frame := r.frame)
  {
    s.(waitingForFrame := false, frame := a.pixels[..FrameBytes(s.cfg)])
  }

  /** The plain blobs a report declares. The library does not compare the
      declared count with the array it receives, so the model requires the
      array to hold them. */
  function PlainBlocks(a: HintArgs): (r: seq<Block>)
    requires RecordCount(a.aWords, BlobAWords) <= |a.aBlobs|
    ensures |r| == a.aWords / BlobAWords
    ensures forall i :: 0 <= i < |r| ==> r[i].kind == Normal && r[i] == DecodeA(a.aBlobs[i])
  {
    DecodeAllA(a.aBlobs[..RecordCount(a.aWords, BlobAWords)])
  }

  function ColorCodeBlocks(a: HintArgs): (r: seq<Block>)
    requires RecordCount(a.bWords, BlobBWords) <= |a.bBlobs|
    ensures |r| == a.bWords / BlobBWords
    ensures forall i :: 0 <= i < |r| ==> r[i].kind == ColorCode && r[i] == DecodeB(a.bBlobs[i])
  {
    DecodeAllB(a.bBlobs[..RecordCount(a.bWords, BlobBWords)])
  }

  /** A plain report: adds its blocks to what the buffer holds (evicting the
      oldest beyond capacity) and marks the blocks fresh. */
  function InterpretCcb1(s: Session, a: HintArgs): (r: Session)
    requires Valid(s) && RecordCount(a.aWords, BlobAWords) <= |a.aBlobs|
    ensures Valid(r) && r.blocksAreNew
    ensures r.blocks == BlockBuffer.LastN(s.blocks + PlainBlocks(a), s.cfg.capacity)
    ensures r == s.(blocks := r.blocks, blocksAreNew := true)
  {
    s.(blocks := BlockBuffer.Append(s.blocks, PlainBlocks(a), s.cfg.capacity), blocksAreNew := true)
  }

  /** A colour-code report: empties the buffer, adds the colour-code blocks,
      then the plain blocks, and marks the blocks fresh. */
  function InterpretCcb2(s: Session, a: HintArgs): (r: Session)
    requires Valid(s)
    requires RecordCount(a.aWords, BlobAWords) <= |a.aBlobs|
    requires RecordCount(a.bWords, BlobBWords) <= |a.bBlobs|
    ensures Valid(r) && r.blocksAreNew
    ensures r.blocks == BlockBuffer.LastN(ColorCodeBlocks(a) + PlainBlocks(a), s.cfg.capacity)
    ensures r == s.(blocks := r.blocks, blocksAreNew := true)
  {
    var cap := s.cfg.capacity;
    var codes, plain := ColorCodeBlocks(a), PlainBlocks(a);
    var withCodes := BlockBuffer.Append([], codes, cap);
    assert [] + codes == codes;
    assert withCodes == BlockBuffer.LastN(codes, cap);
    var all := BlockBuffer.Append(withCodes, plain, cap);
    BlockBuffer.LastNAbsorbs(codes, plain, cap);
    assert all == BlockBuffer.LastN(codes + plain, cap);
    s.(blocks := all, blocksAreNew := true)
  }

  /** The payload conditions the decoders rely on without checking. */
  predicate WellFormed(cfg: Config, m: Message)
  {
    m.Hint? ==>
      && (m.fourcc == BA81 ==> |m.args.pixels| >= FrameBytes(cfg))
      && (m.fourcc == CCB1 || m.fourcc == CCB2 ==> RecordCount(m.args.aWords, BlobAWords) <= |m.args.aBlobs|)
      && (m.fourcc == CCB2 ==> RecordCount(m.args.bWords, BlobBWords) <= |m.args.bBlobs|)
  }

  /** The three messages that change the interpreter. */
  predicate Decoded(m: Message)
  {
    m.Hint? && (m.fourcc == BA81 || m.fourcc == CCB1 || m.fourcc == CCB2)
  }

  /** The message callback: dispatch on the message type and, for a hint, on
      its format code. Everything else is ignored. */
  function InterpretData(s: Session, m: Message): (r: Session)
    requires Valid(s) && WellFormed(s.cfg, m)
    ensures Valid(r)
    ensures !Decoded(m) ==> r == s
    ensures r.cfg == s.cfg && r.running == s.running && r.closing == s.closing
    ensures r.procCache == s.procCache && r.frameProc == s.frameProc
    ensures m.Hint? && m.fourcc == BA81 ==>
              && !r.waitingForFrame && r.frame == m.args.pixels[..FrameBytes(s.cfg)]
              && r.blocks == s.blocks && r.blocksAreNew == s.blocksAreNew
    ensures m.Hint? && m.fourcc == CCB1 ==>
              && r.blocksAreNew && r.frame == s.frame && r.waitingForFrame == s.waitingForFrame
              && r.blocks == BlockBuffer.LastN(s.blocks + PlainBlocks(m.args), s.cfg.capacity)
    ensures m.Hint? && m.fourcc == CCB2 ==>
              && r.blocksAreNew && r.frame == s.frame && r.waitingForFrame == s.waitingForFrame
              && r.blocks == BlockBuffer.LastN(ColorCodeBlocks(m.args) + PlainBlocks(m.args), s.cfg.capacity)
  {
    match m
    case Hint(fourcc, args) =>
      if fourcc == BA81 then InterpretBa81(s, args)
      else if fourcc == CCB1 then InterpretCcb1(s, args)
      else if fourcc == CCB2 then InterpretCcb2(s, args)
      else s
    case _ => s
  }

  /** One iteration of the service thread: while running and not closing,
      the engine's service step may deliver one message. */
  function ServiceStep(s: Session, arrival: Option<Message>): (r: Session)
    requires Valid(s) && (arrival.Some? ==> WellFormed(s.cfg, arrival.value))
    ensures Valid(r)
    ensures !s.running || s.closing || arrival.None? ==> r == s
    ensures s.running && !s.closing && arrival.Some? ==> r == InterpretData(s, arrival.value)
    ensures r.procCache == s.procCache && r.running == s.running
  {
    if !s.running || s.closing then s
    else match arrival
      case None => s
      case Some(m) => InterpretData(s, m)
  }
}
