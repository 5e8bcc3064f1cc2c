/** Properties of the interpreter that relate several transitions. */
module InterpreterProps {
  import opened Common
  import opened Blobs
  import opened Chirp
  import opened Interpreter
  import BlockBuffer

  /** A colour-code report leaves every colour-code block ahead of every
      plain block, eviction included. */
  lemma Ccb2ColorCodesFirst(s: Session, a: HintArgs)
    requires Valid(s)
    requires RecordCount(a.aWords, BlobAWords) <= |a.aBlobs|
    requires RecordCount(a.bWords, BlobBWords) <= |a.bBlobs|
    ensures ColorCodesFirst(InterpretCcb2(s, a).blocks)
  {
    SuffixKeepsColorCodesFirst(ColorCodeBlocks(a), PlainBlocks(a), s.cfg.capacity);
  }

  /** Any suffix of colour-code blocks followed by normal blocks has the
      colour-code blocks first. */
  lemma {:induction false} SuffixKeepsColorCodesFirst(codes: seq<Block>, plain: seq<Block>, n: nat)
    requires forall i :: 0 <= i < |codes| ==> codes[i].kind == ColorCode
    requires forall i :: 0 <= i < |plain| ==> plain[i].kind == Normal
    ensures ColorCodesFirst(BlockBuffer.LastN(codes + plain, n))
  {
    var all := codes + plain;
    var r := BlockBuffer.LastN(all, n);
    var k := |all| - |r|;
    assert r == all[k..];
    forall i, j | 0 <= i < j < |r| && r[j].kind == ColorCode
      ensures r[i].kind == ColorCode
    {
      assert r[j] == all[k + j];
      assert r[i] == all[k + i];
    }
  }

  /** A colour-code report keeps nothing that was in the buffer before it:
      every block it leaves comes from the report itself. */
  lemma Ccb2DropsOldBlocks(s: Session, a: HintArgs)
    requires Valid(s)
    requires RecordCount(a.aWords, BlobAWords) <= |a.aBlobs|
    requires RecordCount(a.bWords, BlobBWords) <= |a.bBlobs|
    ensures forall b :: b in InterpretCcb2(s, a).blocks ==> b in ColorCodeBlocks(a) || b in PlainBlocks(a)
  {
    SuffixFromParts(ColorCodeBlocks(a), PlainBlocks(a), s.cfg.capacity);
  }

  lemma {:induction false} SuffixFromParts(u: seq<Block>, v: seq<Block>, n: nat)
    ensures forall b :: b in BlockBuffer.LastN(u + v, n) ==> b in u || b in v
  {
    var all := u + v;
    var r := BlockBuffer.LastN(all, n);
    assert r == all[|all| - |r|..];
    forall b | b in r ensures b in u || b in v {
      var i :| 0 <= i < |r| && r[i] == b;
      assert b == all[|all| - |r| + i];
    }
  }

  /** Two plain reports on an empty buffer leave the last `capacity` of all
      their blocks, in arrival order. */
  lemma {:induction false} TwoPlainReports(s: Session, a1: HintArgs, a2: HintArgs)
    requires Valid(s) && s.blocks == []
    requires RecordCount(a1.aWords, BlobAWords) <= |a1.aBlobs|
    requires RecordCount(a2.aWords, BlobAWords) <= |a2.aBlobs|
    ensures var both := PlainBlocks(a1) + PlainBlocks(a2);
            var r := InterpretCcb1(InterpretCcb1(s, a1), a2).blocks;
            && (|both| <= s.cfg.capacity ==> r == both)
            && (|both| > s.cfg.capacity ==> |r| == s.cfg.capacity && r == both[|both| - s.cfg.capacity..])
  {
    var p1, p2 := PlainBlocks(a1), PlainBlocks(a2);
    assert s.blocks + p1 == p1;
    BlockBuffer.LastNAbsorbs(p1, p2, s.cfg.capacity);
  }

  /** The concrete case of a capacity of 1000 fed reports of 500 and 505
      records: the buffer ends full, holding records 6 to 1005 (counted from
      1 in arrival order). */
  lemma ThousandBlockScenario(s: Session, a1: HintArgs, a2: HintArgs)
    requires Valid(s) && s.blocks == [] && s.cfg.capacity == 1000
    requires a1.aWords == 500 * BlobAWords && |a1.aBlobs| == 500
    requires a2.aWords == 505 * BlobAWords && |a2.aBlobs| == 505
    ensures var r := InterpretCcb1(InterpretCcb1(s, a1), a2).blocks;
            && |r| == 1000
            && (forall i :: 0 <= i < 495 ==> r[i] == DecodeA(a1.aBlobs[i + 5]))
            && (forall i :: 495 <= i < 1000 ==> r[i] == DecodeA(a2.aBlobs[i - 495]))
  {
    TwoPlainReports(s, a1, a2);
    var p1, p2 := PlainBlocks(a1), PlainBlocks(a2);
    var both := p1 + p2;
    var r := InterpretCcb1(InterpretCcb1(s, a1), a2).blocks;
    assert |p1| == 500 && |p2| == 505;
    assert r == both[5..];
    forall i | 0 <= i < 1000
      ensures i < 495 ==> r[i] == DecodeA(a1.aBlobs[i + 5])
      ensures 495 <= i ==> r[i] == DecodeA(a2.aBlobs[i - 495])
    {
      assert r[i] == both[i + 5];
      if i < 495 {
        assert both[i + 5] == p1[i + 5] == DecodeA(a1.aBlobs[i + 5]);
      } else {
        assert both[i + 5] == p2[i - 495] == DecodeA(a2.aBlobs[i - 495]);
      }
    }
  }

  /** A frame arriving between two plain reports leaves the blocks and the
      fresh flag as if it had not arrived. */
  lemma FrameBetweenReports(s: Session, a1: HintArgs, f: HintArgs, a2: HintArgs)
    requires Valid(s)
    requires RecordCount(a1.aWords, BlobAWords) <= |a1.aBlobs|
    requires RecordCount(a2.aWords, BlobAWords) <= |a2.aBlobs|
    requires |f.pixels| >= FrameBytes(s.cfg)
    ensures var with := InterpretCcb1(InterpretBa81(InterpretCcb1(s, a1), f), a2);
            var without := InterpretCcb1(InterpretCcb1(s, a1), a2);
            with.blocks == without.blocks && with.blocksAreNew == without.blocksAreNew
  {
  }

  /** After a successful frame request a second one is refused until a frame
      arrives or the wait is reset; after either, the next request reaches
      the engine again. */
  lemma {:induction false} FrameRequestGuard(s: Session, e1: Engine, e2: Engine, f: HintArgs)
    requires Valid(s) && s.running
    requires UpdateFrame(s, e1).code == 0
    requires |f.pixels| >= FrameBytes(s.cfg)
    ensures var t := UpdateFrame(s, e1).session;
            && t.waitingForFrame
            && UpdateFrame(t, e2).code == ErrorFramePending
            && UpdateFrame(ResetFrameWait(t), e2).code == e2.async(s.frameProc, FrameRequestArgs(s.cfg))
            && UpdateFrame(InterpretBa81(t, f), e2).code == e2.async(s.frameProc, FrameRequestArgs(s.cfg))
  {
    var t := UpdateFrame(s, e1).session;
    assert !s.waitingForFrame;
    assert t == s.(waitingForFrame := true);
  }

  /** The first command with an unseen name resolves it once; after a
      successful resolution a second command with that name resolves
      nothing and calls the same procedure id. */
  lemma {:induction false} CommandCacheHit(s: Session, name: string, a1: seq<Arg>, a2: seq<Arg>, e1: Engine, e2: Engine)
    requires s.running && name !in s.procCache
    requires e1.getProc(name) >= 0
    ensures SendCommand(s, name, a1, e1).lookedUp
    ensures var t := SendCommand(s, name, a1, e1).session;
            && !SendCommand(t, name, a2, e2).lookedUp
            && SendCommand(t, name, a2, e2).reply == Some(e2.sync(e1.getProc(name), a2))
  {
  }

  /** A session whose cache came from an engine keeps that property across
      any command run on the same engine. */
  lemma CacheStaysFromEngine(s: Session, name: string, args: seq<Arg>, e: Engine)
    requires CacheFrom(s, e)
    ensures CacheFrom(SendCommand(s, name, args, e).session, e)
  {
  }

  /** The frame read back is the last frame that arrived: the first
      width*height bytes of its pixels. A later frame request or block report
      does not change it. */
  lemma FrameReadBack(s: Session, f: HintArgs, a: HintArgs, e: Engine)
    requires Valid(s) && |f.pixels| >= FrameBytes(s.cfg)
    requires RecordCount(a.aWords, BlobAWords) <= |a.aBlobs|
    ensures var t := InterpretBa81(s, f);
            && GetFrame(t) == f.pixels[..FrameBytes(s.cfg)]
            && GetFrame(UpdateFrame(t, e).session) == f.pixels[..FrameBytes(s.cfg)]
            && GetFrame(InterpretCcb1(t, a)) == f.pixels[..FrameBytes(s.cfg)]
  {
  }

  /** A failed resolution leaves the cache as it was, so the next command
      with that name resolves again. */
  lemma FailedLookupRetried(s: Session, name: string, a1: seq<Arg>, a2: seq<Arg>, e1: Engine, e2: Engine)
    requires s.running && name !in s.procCache && e1.getProc(name) < 0
    ensures var t := SendCommand(s, name, a1, e1).session;
            t.procCache == s.procCache && SendCommand(t, name, a2, e2).lookedUp
  {
  }

  /** Resolved ids are never forgotten or changed by any transition. */
  lemma CacheIsWriteOnce(s: Session, name: string, args: seq<Arg>, e: Engine)
    ensures var t := SendCommand(s, name, args, e).session;
            forall n :: n in s.procCache ==> n in t.procCache && t.procCache[n] == s.procCache[n]
  {
  }

  /** Reading blocks after a report reports them fresh once: the read clears
      the flag even when it copies nothing. */
  lemma ReadClearsFresh(s: Session, a: HintArgs, maxBlocks: int)
    requires Valid(s) && RecordCount(a.aWords, BlobAWords) <= |a.aBlobs|
    requires 0 <= maxBlocks
    ensures var t := InterpretCcb1(s, a);
            && BlocksAreNew(t) == 1
            && BlocksAreNew(GetBlocks(t, maxBlocks, true).session) == 0
            && GetBlocks(t, maxBlocks, true).session.blocks == t.blocks
  {
  }

  /** One event of a session's life, in the order the library happens to
      apply them. */
  datatype Event =
    | Arrive(m: Message)
    | Read(maxBlocks: int, destination: bool)
    | RequestFrame(e: Engine)
    | ResetWait
    | Command(name: string, args: seq<Arg>, e: Engine)
    | Stop

  predicate Admissible(cfg: Config, evs: seq<Event>)
  {
    forall i :: 0 <= i < |evs| && evs[i].Arrive? ==> WellFormed(cfg, evs[i].m)
  }

  /** The state after one event. */
  function Apply(s: Session, ev: Event): (r: Session)
    requires Valid(s) && (ev.Arrive? ==> WellFormed(s.cfg, ev.m))
    ensures Valid(r) && r.cfg == s.cfg
    ensures forall n :: n in s.procCache ==> n in r.procCache && r.procCache[n] == s.procCache[n]
  {
    match ev
    case Arrive(m) => ServiceStep(s, Some(m))
    case Read(maxBlocks, destination) => GetBlocks(s, maxBlocks, destination).session
    case RequestFrame(e) => UpdateFrame(s, e).session
    case ResetWait => ResetFrameWait(s)
    case Command(name, args, e) => SendCommand(s, name, args, e).session
    case Stop => Close(s)
  }

  lemma AdmissibleTail(cfg: Config, evs: seq<Event>)
    requires evs != [] && Admissible(cfg, evs)
    ensures evs[0].Arrive? ==> WellFormed(cfg, evs[0].m)
    ensures Admissible(cfg, evs[1..])
  {
    forall i | 0 <= i < |evs[1..]| && evs[1..][i].Arrive?
      ensures WellFormed(cfg, evs[1..][i].m)
    {
      assert evs[1..][i] == evs[i + 1];
    }
  }

  /** The state after a sequence of events. */
  function Run(s: Session, evs: seq<Event>): (r: Session)
    requires Valid(s) && Admissible(s.cfg, evs)
    ensures Valid(r) && r.cfg == s.cfg
    ensures |r.blocks| <= s.cfg.capacity
    ensures forall n :: n in s.procCache ==> n in r.procCache && r.procCache[n] == s.procCache[n]
    decreases |evs|
  {
    if evs == [] then s
    else
      AdmissibleTail(s.cfg, evs);
      Run(Apply(s, evs[0]), evs[1..])
  }

  /** Messages other than the three decoded formats change nothing,
      whatever the state. */
  lemma IgnoredMessages(s: Session, args: HintArgs, tag: u8, code: u32)
    requires Valid(s)
    requires code != BA81 && code != CCB1 && code != CCB2
    ensures InterpretData(s, NoData) == s
    ensures InterpretData(s, HString) == s
    ensures InterpretData(s, OtherType(tag)) == s
    ensures InterpretData(s, Hint(CCQ1, args)) == s
    ensures InterpretData(s, Hint(CMV1, args)) == s
    ensures InterpretData(s, Hint(CMV2, args)) == s
    ensures InterpretData(s, Hint(code, args)) == s
  {
  }
}
