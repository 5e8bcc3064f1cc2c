/** The C API's command wrappers: each packs its arguments, runs one named
    command through the registry, and returns either the negative status of
    the command or the value the camera answered with. */
module Api {
  import opened Common
  import opened Chirp
  import opened Interpreter
  import opened Registry
  import opened Packing
  import Enumerate

  /** The common wrapper: a negative command status is returned unchanged,
      anything else is replaced by the camera's 32-bit answer read as an
      `int`. */
  function Query(reg: Sessions, uid: Uid, name: string, args: seq<Arg>, e: Engine): (r: Outcome<()>)
    ensures var c := PixyCommand(reg, uid, name, args, e);
            && r.registry == c.registry
            && (c.code < 0 ==> r.code == c.code)
            && (c.code >= 0 ==> c.out.Some? && r.code == ToInt32(c.out.value.word))
    ensures uid !in reg ==> r.code == UnknownUid && r.registry == reg
    ensures uid in reg && !reg[uid].running ==> r.code == ErrorNotRunning && r.registry == reg
  {
    var c := PixyCommand(reg, uid, name, args, e);
    if c.code < 0 then Outcome(c.registry, c.code, ())
    else Outcome(c.registry, ToInt32(c.out.value.word), ())
  }

  /** Sets the LED colour: one signed 32-bit argument holding the packed
      colour word. */
  function PixyLedSetRgb(reg: Sessions, uid: Uid, red: bv8, green: bv8, blue: bv8, e: Engine): (r: Outcome<()>)
    ensures uid !in reg ==> r.code == UnknownUid && r.registry == reg
    ensures uid in reg && !reg[uid].running ==> r.code == ErrorNotRunning
    ensures var c := PixyCommand(reg, uid, "led_set", [Int32(PackRgb(red, green, blue) as int)], e);
            && r.registry == c.registry
            && (c.code < 0 ==> r.code == c.code)
            && (c.code >= 0 ==> r.code == ToInt32(c.out.value.word))
  {
    var rgb := PackRgb(red, green, blue);
    Query(reg, uid, "led_set", [Int32(rgb as int)], e)
  }

  /** Sets the white balance: one unsigned 32-bit argument holding the
      packed white-balance word. */
  function PixyCamSetWhiteBalanceValue(reg: Sessions, uid: Uid, red: bv8, green: bv8, blue: bv8, e: Engine): (r: Outcome<()>)
    ensures uid !in reg ==> r.code == UnknownUid && r.registry == reg
    ensures uid in reg && !reg[uid].running ==> r.code == ErrorNotRunning
    ensures var c := PixyCommand(reg, uid, "cam_setWBV", [UInt32(PackWhiteBalance(red, green, blue) as int)], e);
            && r.registry == c.registry
            && (c.code < 0 ==> r.code == c.code)
            && (c.code >= 0 ==> r.code == ToInt32(c.out.value.word))
  {
    var wb := PackWhiteBalance(red, green, blue);
    Query(reg, uid, "cam_setWBV", [UInt32(wb as int)], e)
  }

  /** The gain and compensation are bit-packed, so they are taken as
      bit-vectors of their C widths. */
  function PixyCamSetExposureCompensation(reg: Sessions, uid: Uid, gain: bv8, compensation: bv16, e: Engine): (r: Outcome<()>)
    ensures uid !in reg ==> r.code == UnknownUid && r.registry == reg
    ensures uid in reg && !reg[uid].running ==> r.code == ErrorNotRunning
    ensures var c := PixyCommand(reg, uid, "cam_setECV", [UInt32(PackExposure(gain, compensation) as int)], e);
            && r.registry == c.registry
            && (c.code < 0 ==> r.code == c.code)
            && (c.code >= 0 ==> r.code == ToInt32(c.out.value.word))
  {
    var exposure := PackExposure(gain, compensation);
    Query(reg, uid, "cam_setECV", [UInt32(exposure as int)], e)
  }

  /** Reads gain and compensation back. The output pointers are checked only
      after the command has succeeded. */
  function PixyCamGetExposureCompensation(reg: Sessions, uid: Uid, gainOut: bool, compensationOut: bool, e: Engine)
    : (r: Outcome<Option<(bv8, bv16)>>)
    ensures var c := PixyCommand(reg, uid, "cam_getECV", [], e);
            && r.registry == c.registry
            && (c.code < 0 ==> r.code == c.code && r.out == None)
            && (c.code >= 0 && !(gainOut && compensationOut) ==> r.code == ErrorInvalidParameter && r.out == None)
    ensures var c := PixyCommand(reg, uid, "cam_getECV", [], e);
            c.code >= 0 && gainOut && compensationOut ==> r.code == 0
    ensures r.out.Some? <==> r.code == 0
    ensures r.out.Some? ==>
              var word := PixyCommand(reg, uid, "cam_getECV", [], e).out.value.word as bv32;
              PackExposure(r.out.value.0, r.out.value.1) == word & 0xFF_FFFF
  {
    var c := PixyCommand(reg, uid, "cam_getECV", [], e);
    if c.code < 0 then Outcome(c.registry, c.code, None)
    else if !gainOut || !compensationOut then Outcome(c.registry, ErrorInvalidParameter, None)
    else
      Outcome(c.registry, 0, Some(UnpackExposure(c.out.value.word as bv32)))
  }

  /** Reads the firmware version. The output pointers are checked before any
      command is issued. */
  function PixyGetFirmwareVersion(reg: Sessions, uid: Uid, majorOut: bool, minorOut: bool, buildOut: bool, e: Engine)
    : (r: Outcome<Option<Version>>)
    ensures !(majorOut && minorOut && buildOut) ==> r == Outcome(reg, ErrorInvalidParameter, None)
    ensures majorOut && minorOut && buildOut ==>
              var c := PixyCommand(reg, uid, "version", [], e);
              && r.registry == c.registry
              && (c.code < 0 ==> r.code == c.code && r.out == None)
              && (c.code >= 0 ==> r.code == 0 && r.out == Some(c.out.value.version))
  {
    if !majorOut || !minorOut || !buildOut then Outcome(reg, ErrorInvalidParameter, None)
    else
      var c := PixyCommand(reg, uid, "version", [], e);
      if c.code < 0 then Outcome(c.registry, c.code, None)
      else Outcome(c.registry, 0, Some(c.out.value.version))
  }

  // The remaining wrappers differ only in the procedure name and arguments.

  function PixyLedSetMaxCurrent(reg: Sessions, uid: Uid, current: u32, e: Engine): Outcome<()>
  {
    Query(reg, uid, "led_setMaxCurrent", [Int32(ToInt32(current))], e)
  }

  function PixyLedGetMaxCurrent(reg: Sessions, uid: Uid, e: Engine): Outcome<()>
  {
    Query(reg, uid, "led_getMaxCurrent", [], e)
  }

  function PixyCamSetAutoWhiteBalance(reg: Sessions, uid: Uid, enable: u8, e: Engine): Outcome<()>
  {
    Query(reg, uid, "cam_setAWB", [UInt8(enable)], e)
  }

  function PixyCamGetAutoWhiteBalance(reg: Sessions, uid: Uid, e: Engine): Outcome<()>
  {
    Query(reg, uid, "cam_getAWB", [], e)
  }

  /** The one wrapper declared to return `uint32_t`: its negative statuses
      come back as large unsigned values. */
  function PixyCamGetWhiteBalanceValue(reg: Sessions, uid: Uid, e: Engine): (r: Outcome<u32>)
    ensures var q := Query(reg, uid, "cam_getWBV", [], e);
            r.registry == q.registry && (r.out - q.code) % 0x1_0000_0000 == 0
    ensures uid !in reg ==> r.out == 0xFFFF_FFFF
  {
    var q := Query(reg, uid, "cam_getWBV", [], e);
    Outcome(q.registry, q.code, q.code % 0x1_0000_0000)
  }

  function PixyCamSetAutoExposureCompensation(reg: Sessions, uid: Uid, enable: u8, e: Engine): Outcome<()>
  {
    Query(reg, uid, "cam_setAEC", [UInt8(enable)], e)
  }

  function PixyCamGetAutoExposureCompensation(reg: Sessions, uid: Uid, e: Engine): Outcome<()>
  {
    Query(reg, uid, "cam_getAEC", [], e)
  }

  function PixyCamSetBrightness(reg: Sessions, uid: Uid, brightness: u8, e: Engine): Outcome<()>
  {
    Query(reg, uid, "cam_setBrightness", [UInt8(brightness)], e)
  }

  function PixyCamGetBrightness(reg: Sessions, uid: Uid, e: Engine): Outcome<()>
  {
    Query(reg, uid, "cam_getBrightness", [], e)
  }

  function PixyRcsGetPosition(reg: Sessions, uid: Uid, channel: u8, e: Engine): Outcome<()>
  {
    Query(reg, uid, "rcs_getPos", [UInt8(channel)], e)
  }

  /** The position is passed as a signed 16-bit argument. */
  function PixyRcsSetPosition(reg: Sessions, uid: Uid, channel: u8, position: u16, e: Engine): Outcome<()>
  {
    var signed: i16 := if position < 0x8000 then position else position - 0x1_0000;
    Query(reg, uid, "rcs_setPos", [UInt8(channel), Int16(signed)], e)
  }

  function PixyRcsSetFrequency(reg: Sessions, uid: Uid, frequency: u16, e: Engine): Outcome<()>
  {
    Query(reg, uid, "rcs_setFreq", [UInt16(frequency)], e)
  }

  // ---------------------------------------------------------------------
  // Properties across the wrappers

  /** A camera as far as the exposure calls see it: the ids it gives the
      two exposure procedures and the exposure word it holds. */
  datatype ExposureCamera = ExposureCamera(setId: int, getId: int, stored: u32)

  /** The camera as an engine: it resolves the two exposure names to their
      ids and nothing else, answers `cam_getECV` with the word it holds, and
      answers every other call with status 0. */
  function CameraEngine(cam: ExposureCamera): Engine
  {
    var none := Version(0, 0, 0);
    Engine(n => if n == "cam_setECV" then cam.setId else if n == "cam_getECV" then cam.getId else -1,
           (id, args) => if id == cam.getId then Reply(0, cam.stored, none) else Reply(0, 0, none),
           (_, _) => 0)
  }

  /** The camera after it receives a call: `cam_setECV` with one unsigned
      32-bit argument stores that word; any other call changes nothing. */
  function Received(cam: ExposureCamera, id: int, args: seq<Arg>): ExposureCamera
  {
    if id == cam.setId && |args| == 1 && args[0].UInt32? then cam.(stored := args[0].u32v) else cam
  }

  /** The session's cache agrees with the camera on the two exposure names
      it has resolved so far; other names (such as `getUID`) are free. */
  predicate KnowsCamera(s: Session, cam: ExposureCamera)
  {
    && ("cam_setECV" in s.procCache ==> s.procCache["cam_setECV"] == cam.setId)
    && ("cam_getECV" in s.procCache ==> s.procCache["cam_getECV"] == cam.getId)
  }

  /** Setting the exposure and reading it back from a camera that keeps the
      word it was sent returns the gain and compensation that were set. The
      session may have resolved any names before (an enumerated session has
      `getUID` cached), as long as an exposure name it cached has the
      camera's id. */
  lemma {:induction false} ExposureSetThenGet(reg: Sessions, uid: Uid, gain: bv8, compensation: bv16,
                                              cam: ExposureCamera)
    requires uid in reg && reg[uid].running
    requires 0 <= cam.setId && 0 <= cam.getId && cam.setId != cam.getId
    requires KnowsCamera(reg[uid], cam)
    ensures var put := PixyCamSetExposureCompensation(reg, uid, gain, compensation, CameraEngine(cam));
            var after := Received(cam, cam.setId, [UInt32(PackExposure(gain, compensation) as int)]);
            var get := PixyCamGetExposureCompensation(put.registry, uid, true, true, CameraEngine(after));
            && put.code == 0
            && get.code == 0 && get.out == Some((gain, compensation))
  {
    var w := PackExposure(gain, compensation);
    var after := Received(cam, cam.setId, [UInt32(w as int)]);
    assert after == cam.(stored := w as int);
    var put := PixyCamSetExposureCompensation(reg, uid, gain, compensation, CameraEngine(cam));
    assert put.code == 0 && uid in put.registry && put.registry[uid].running
           && KnowsCamera(put.registry[uid], after) by {
      SetOnCamera(reg, uid, w, cam, after);
    }
    GetAfterSet(put.registry, uid, gain, compensation, after);
  }

  /** Every session enumeration registers meets the set-then-get premise:
      its cache holds only `getUID`. */
  lemma EnumeratedSessionKnowsCamera(cfg: Config, d: Enumerate.Device, cam: ExposureCamera)
    requires Enumerate.Fits(cfg, d)
    requires Enumerate.Try(cfg, d).Registered?
    ensures Enumerate.Try(cfg, d).session.running
    ensures KnowsCamera(Enumerate.Try(cfg, d).session, cam)
  {
  }

  /** Reading back from a camera that holds the packed exposure word gives
      the gain and compensation packed into it. */
  lemma {:induction false} GetAfterSet(reg: Sessions, uid: Uid, gain: bv8, compensation: bv16, cam: ExposureCamera)
    requires uid in reg && reg[uid].running
    requires 0 <= cam.getId
    requires KnowsCamera(reg[uid], cam)
    requires cam.stored == PackExposure(gain, compensation) as int
    ensures var get := PixyCamGetExposureCompensation(reg, uid, true, true, CameraEngine(cam));
            get.code == 0 && get.out == Some((gain, compensation))
  {
    GetFromCamera(reg, uid, cam);
    assert UnpackExposure(cam.stored as bv32) == (gain, compensation) by {
      WordRoundTrip(PackExposure(gain, compensation));
      ExposureRoundTrip(gain, compensation);
    }
  }

  /** The set call succeeds on the camera and leaves a running session whose
      cache still agrees with the camera, whatever word the camera holds. */
  lemma {:induction false} SetOnCamera(reg: Sessions, uid: Uid, w: bv32, cam: ExposureCamera, after: ExposureCamera)
    requires uid in reg && reg[uid].running
    requires 0 <= cam.setId && 0 <= cam.getId && cam.setId != cam.getId
    requires KnowsCamera(reg[uid], cam)
    requires after.setId == cam.setId && after.getId == cam.getId
    ensures var c := PixyCommand(reg, uid, "cam_setECV", [UInt32(w as int)], CameraEngine(cam));
            && c.code == 0 && c.out.value.word == 0
            && uid in c.registry && c.registry[uid].running && KnowsCamera(c.registry[uid], after)
  {
    var s := reg[uid];
    var e := CameraEngine(cam);
    assert e.getProc("cam_setECV") == cam.setId;
    var c := SendCommand(s, "cam_setECV", [UInt32(w as int)], e);
    assert c.session.procCache == s.procCache["cam_setECV" := cam.setId];
    CachingSetId(s.procCache, cam, after);
  }

  /** Caching the camera's `cam_setECV` id keeps the cache in agreement
      with the camera on both exposure names. */
  lemma CachingSetId(m: map<string, int>, cam: ExposureCamera, after: ExposureCamera)
    requires "cam_setECV" in m ==> m["cam_setECV"] == cam.setId
    requires "cam_getECV" in m ==> m["cam_getECV"] == cam.getId
    requires after.setId == cam.setId && after.getId == cam.getId
    ensures var t := m["cam_setECV" := cam.setId];
            && t["cam_setECV"] == after.setId
            && ("cam_getECV" in t ==> t["cam_getECV"] == after.getId)
  {
    assert "cam_getECV"[4] != "cam_setECV"[4];
  }

  /** The get call on the camera succeeds and answers the word it holds. */
  lemma {:induction false} GetFromCamera(reg: Sessions, uid: Uid, cam: ExposureCamera)
    requires uid in reg && reg[uid].running
    requires 0 <= cam.getId
    requires KnowsCamera(reg[uid], cam)
    ensures var r := PixyCamGetExposureCompensation(reg, uid, true, true, CameraEngine(cam));
            r.code == 0 && r.out == Some(UnpackExposure(cam.stored as bv32))
  {
    var s := reg[uid];
    var e := CameraEngine(cam);
    assert e.getProc("cam_getECV") == cam.getId;
    var c := PixyCommand(reg, uid, "cam_getECV", [], e);
    assert c.out == Some(e.sync(cam.getId, []));
  }

  lemma WordRoundTrip(w: bv32)
    ensures (w as int) as bv32 == w
  {
  }

  /** The firmware query refuses a null pointer before it looks the uid up or
      issues anything: the outcome does not depend on the engine, the
      registry (and so every procedure cache) is left as it was, and an
      unknown uid gets -150 rather than -1. */
  lemma FirmwareNullCheckFirst(reg: Sessions, uid: Uid, majorOut: bool, minorOut: bool, buildOut: bool,
                                e1: Engine, e2: Engine)
    requires !(majorOut && minorOut && buildOut)
    ensures var r := PixyGetFirmwareVersion(reg, uid, majorOut, minorOut, buildOut, e1);
            && r == PixyGetFirmwareVersion(reg, uid, majorOut, minorOut, buildOut, e2)
            && r.registry == reg && r.code == ErrorInvalidParameter
            && (uid !in reg ==> r.code != UnknownUid)
  {
  }

  /** The exposure query issues the command first: with a null pointer an
      unknown uid still reports -1, and a known uid whose command succeeds
      reports the invalid-parameter error after the procedure has been
      resolved and cached. */
  lemma {:induction false} ExposureNullCheckLast(reg: Sessions, uid: Uid, e: Engine)
    ensures uid !in reg ==> PixyCamGetExposureCompensation(reg, uid, false, true, e).code == UnknownUid
    ensures uid in reg && reg[uid].running && "cam_getECV" !in reg[uid].procCache && e.getProc("cam_getECV") >= 0
            && e.sync(e.getProc("cam_getECV"), []).status >= 0 ==>
              var r := PixyCamGetExposureCompensation(reg, uid, false, true, e);
              r.code == ErrorInvalidParameter && "cam_getECV" in r.registry[uid].procCache
  {
  }
}
