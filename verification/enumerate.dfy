/** Device discovery: `pixy_enumerate` closes every open interpreter, then
    walks the USB device list, and for each camera (up to the caller's
    maximum) opens and prepares the device, starts an interpreter and asks
    the camera for its uid. The libusb calls are not modelled; each device
    comes with the statuses those calls return. */
module Enumerate {
  import opened Common
  import opened Chirp
  import opened Interpreter
  import opened Registry

  /** The per-device steps, in the order they are made. `Unconfigure` is the
      first `libusb_set_configuration` (to -1), `Configure` the second (to
      1); `Identify` is the `getUID` command. */
  datatype Step = Open | Unconfigure | Configure | Claim0 | Claim1 | AltSetting | Reset | Identify

  function StepIndex(s: Step): nat
  {
    match s
    case Open => 0 case Unconfigure => 1 case Configure => 2 case Claim0 => 3
    case Claim1 => 4 case AltSetting => 5 case Reset => 6 case Identify => 7
  }

  /** What a device holds that must be given back when a later step fails. */
  datatype Resource = Handle | Interface0 | Interface1 | InterpreterInstance

  /** The resource a step acquires when it succeeds, if any. The interpreter
      is started (its start-up cannot fail) between `Reset` and `Identify`,
      so it counts as acquired by `Reset`. */
  function Acquires(s: Step): Option<Resource>
  {
    match s
    case Open => Some(Handle)
    case Claim0 => Some(Interface0)
    case Claim1 => Some(Interface1)
    case Reset => Some(InterpreterInstance)
    case _ => None
  }

  const AllSteps: seq<Step> := [Open, Unconfigure, Configure, Claim0, Claim1, AltSetting, Reset, Identify]

  /** Everything the steps before `failed` acquired. */
  function HeldWhenFailing(failed: Step): set<Resource>
  {
    set i, r | 0 <= i < |AllSteps| && StepIndex(AllSteps[i]) < StepIndex(failed)
                && Acquires(AllSteps[i]) == Some(r) :: r
  }

  /** What the code gives back, in order, when a step fails: it jumps to a
      cleanup label that releases the claimed interfaces and closes the
      handle; after a failed `getUID` it closes the interpreter, which
      releases both interfaces and closes the handle through its link. */
  function Unwind(failed: Step): (released: seq<Resource>)
  {
    match failed
    case Open => []
    case Unconfigure => [Handle]
    case Configure => [Handle]
    case Claim0 => [Handle]
    case Claim1 => [Interface0, Handle]
    case AltSetting => [Interface1, Interface0, Handle]
    case Reset => [Interface1, Interface0, Handle]
    case Identify => [Interface0, Interface1, Handle, InterpreterInstance]
  }

  /** A failed candidate gives back exactly what it had acquired, each thing
      once, and closes the handle only after releasing its interfaces. */
  lemma {:induction false} UnwindReleasesWhatWasHeld(failed: Step)
    ensures (set r | r in Unwind(failed)) == HeldWhenFailing(failed)
    ensures forall i, j :: 0 <= i < j < |Unwind(failed)| ==> Unwind(failed)[i] != Unwind(failed)[j]
    ensures forall i, j :: 0 <= i < j < |Unwind(failed)| && Unwind(failed)[i] == Handle ==>
              Unwind(failed)[j] == InterpreterInstance
  {
    var held := HeldWhenFailing(failed);
    if StepIndex(failed) > 0 {
      assert Acquires(AllSteps[0]) == Some(Handle);
    }
    if StepIndex(failed) > 3 {
      assert Acquires(AllSteps[3]) == Some(Interface0);
    }
    if StepIndex(failed) > 4 {
      assert Acquires(AllSteps[4]) == Some(Interface1);
    }
    if StepIndex(failed) > 6 {
      assert Acquires(AllSteps[6]) == Some(InterpreterInstance);
    }
    forall r | r in held
      ensures r in Unwind(failed)
    {
      var i :| 0 <= i < |AllSteps| && StepIndex(AllSteps[i]) < StepIndex(failed) && Acquires(AllSteps[i]) == Some(r);
    }
  }

  /** The statuses the libusb calls of one device return; 0 is success. */
  datatype UsbStatuses = UsbStatuses(open: int, unconfigure: int, configure: int,
                                     claim0: int, claim1: int, altSetting: int, reset: int)

  /** One entry of the USB device list: its descriptor ids, what its libusb
      calls return, the engine that would talk to it, and the indeterminate
      contents of the new interpreter's unset fields. */
  datatype Device = Device(vendor: int, product: int, usb: UsbStatuses, engine: Engine,
                           freshGarbage: bool, frameGarbage: seq<bv8>)

  /** The first libusb step whose status is not 0. */
  function FirstUsbFailure(u: UsbStatuses): (r: Option<Step>)
    ensures r.Some? ==> StepIndex(r.value) < 7
  {
    if u.open != 0 then Some(Open)
    else if u.unconfigure != 0 then Some(Unconfigure)
    else if u.configure != 0 then Some(Configure)
    else if u.claim0 != 0 then Some(Claim0)
    else if u.claim1 != 0 then Some(Claim1)
    else if u.altSetting != 0 then Some(AltSetting)
    else if u.reset != 0 then Some(Reset)
    else None
  }

  datatype Attempt = Skipped | Failed(step: Step, released: seq<Resource>) | Registered(uid: Uid, session: Session)

  predicate Fits(cfg: Config, d: Device)
  {
    0 < cfg.capacity && |d.frameGarbage| == FrameBytes(cfg)
  }

  /** One pass of the loop body for one device. */
  function Try(cfg: Config, d: Device): (r: Attempt)
    requires Fits(cfg, d)
    ensures r.Skipped? <==> d.vendor != PixyVid || d.product != PixyPid
    ensures r.Failed? ==> r.released == Unwind(r.step)
    ensures r.Failed? ==>
              r.step == if FirstUsbFailure(d.usb).Some? then FirstUsbFailure(d.usb).value else Identify
    ensures r.Registered? <==>
              && d.vendor == PixyVid && d.product == PixyPid && FirstUsbFailure(d.usb) == None
              && d.engine.getProc("getUID") >= 0
              && d.engine.sync(d.engine.getProc("getUID"), []).status == 0
    ensures r.Registered? ==> r.uid == d.engine.sync(d.engine.getProc("getUID"), []).word
    ensures r.Registered? ==>
              && Valid(r.session) && r.session.running && r.session.blocks == []
              && r.session.cfg == cfg
              && !r.session.closing && !r.session.waitingForFrame
              && r.session.frameProc == d.engine.getProc("cam_getFrame")
              && r.session.procCache == map["getUID" := d.engine.getProc("getUID")]
              && r.session.blocksAreNew == d.freshGarbage && r.session.frame == d.frameGarbage
  {
    if d.vendor != PixyVid || d.product != PixyPid then Skipped
    else match FirstUsbFailure(d.usb)
      case Some(step) => Failed(step, Unwind(step))
      case None =>
        var s := Init(New(cfg, d.freshGarbage, d.frameGarbage), d.engine);
        var c := SendCommand(s, "getUID", [], d.engine);
        if c.code != 0 then Failed(Identify, Unwind(Identify))
        else Registered(c.reply.value.word, c.session)
  }

  predicate AllFit(cfg: Config, ds: seq<Device>)
  {
    forall i :: 0 <= i < |ds| ==> Fits(cfg, ds[i])
  }

  /** Reference: the uids of all devices that would register, in list order,
      ignoring the caller's maximum. */
  function Successes(cfg: Config, ds: seq<Device>): seq<Uid>
    requires AllFit(cfg, ds)
  {
    if ds == [] then []
    else
      var a := Try(cfg, ds[|ds| - 1]);
      Successes(cfg, ds[..|ds| - 1]) + (if a.Registered? then [a.uid] else [])
  }

  /** The first `n` elements of `xs` (all of them when there are fewer, none
      when `n` is not positive). */
  function Take<T>(xs: seq<T>, n: int): seq<T>
  {
    if n <= 0 then [] else if n >= |xs| then xs else xs[..n]
  }

  /** Trying fewer devices finds a prefix of the same uids. */
  lemma {:induction false} SuccessesPrefix(cfg: Config, ds: seq<Device>, i: nat)
    requires AllFit(cfg, ds) && i <= |ds|
    ensures Successes(cfg, ds[..i]) <= Successes(cfg, ds)
    decreases |ds| - i
  {
    if i < |ds| {
      var front := ds[..|ds| - 1];
      assert ds[..i] == front[..i];
      SuccessesPrefix(cfg, front, i);
    } else {
      assert ds[..i] == ds;
    }
  }

  /** The USB library's answers: the status of `libusb_init`, the status of
      `libusb_get_device_list` (negative on failure, else the device count)
      and the list itself. */
  datatype Bus = Bus(initStatus: int, listStatus: int, devices: seq<Device>)

  /** `pixy_enumerate`. The uids it writes to the caller's array are the
      first `maxCount` uids of registering devices, in list order; every
      other device is skipped or fails alone without stopping the loop. The
      registry ends up holding exactly those uids, each with a new, running
      interpreter with an empty block buffer. */
  method PixyEnumerate(reg: Sessions, maxCount: int, bus: Bus, cfg: Config)
    returns (r: Sessions, code: int, uids: seq<Uid>, tried: nat)
    requires AllFit(cfg, bus.devices)
    requires bus.listStatus < 0 || bus.listStatus == |bus.devices|
    ensures bus.initStatus != 0 ==> r == map[] && code == bus.initStatus && uids == []
    ensures bus.initStatus == 0 && bus.listStatus < 0 ==> r == map[] && code == bus.listStatus && uids == []
    ensures bus.initStatus == 0 && bus.listStatus >= 0 ==>
              && uids == Take(Successes(cfg, bus.devices), maxCount)
              && code == |uids|
    ensures |uids| <= if maxCount < 0 then 0 else maxCount
    ensures forall u :: u in r <==> u in uids
    ensures forall u :: u in r ==> Valid(r[u]) && r[u].running && r[u].blocks == [] && r[u].cfg == cfg
    ensures tried <= |bus.devices| && FromDevices(cfg, bus.devices, tried, r)
    ensures bus.initStatus == 0 && bus.listStatus >= 0 ==> tried == |bus.devices| || maxCount <= |uids|
  {
    r := CloseAll(reg).registry;
    uids := [];
    tried := 0;
    if bus.initStatus != 0 {
      code := bus.initStatus;
      return;
    }
    if bus.listStatus < 0 {
      code := bus.listStatus;
      return;
    }
    var ds := bus.devices;
    var i := 0;
    while i < |ds| && |uids| < maxCount
      invariant 0 <= i <= |ds|
      invariant uids == Successes(cfg, ds[..i])
      invariant i > 0 ==> |uids| <= maxCount
      invariant forall u :: u in r <==> u in uids
      invariant forall u :: u in r ==> Valid(r[u]) && r[u].running && r[u].blocks == [] && r[u].cfg == cfg
      invariant FromDevices(cfg, ds, i, r)
    {
      SuccessesStep(cfg, ds, i);
      RegisterStep(cfg, ds, i, r);
      var a := Try(cfg, ds[i]);
      if a.Registered? {
        r := r[a.uid := a.session];
        uids := uids + [a.uid];
      }
      i := i + 1;
    }
    TakeAtExit(cfg, ds, i, uids, maxCount);
    tried := i;
    code := |uids|;
  }

  /** What each device's pass of the loop yields. */
  function Attempts(cfg: Config, ds: seq<Device>): (r: seq<Attempt>)
    requires AllFit(cfg, ds)
    ensures |r| == |ds| && forall i :: 0 <= i < |ds| ==> r[i] == Try(cfg, ds[i])
  {
    seq(|ds|, i requires 0 <= i < |ds| => Try(cfg, ds[i]))
  }

  /** Every uid in `r` maps to the session of the last of the first `n`
      attempts that registered that uid. */
  predicate Traced(attempts: seq<Attempt>, n: nat, r: Sessions)
    requires n <= |attempts|
  {
    forall u :: u in r ==>
      exists k ::
        && 0 <= k < n && attempts[k].Registered?
        && attempts[k].uid == u && r[u] == attempts[k].session
        && forall j :: k < j < n && attempts[j].Registered? ==> attempts[j].uid != u
  }

  /** Every registered uid maps to the interpreter that the last of the
      first `n` devices to register under that uid was given: the code
      overwrites the map entry each time a uid registers again. */
  predicate FromDevices(cfg: Config, ds: seq<Device>, n: nat, r: Sessions)
    requires AllFit(cfg, ds) && n <= |ds|
  {
    Traced(Attempts(cfg, ds), n, r)
  }

  /** Registering the next device keeps every interpreter new and running,
      and every entry traceable. */
  lemma RegisterStep(cfg: Config, ds: seq<Device>, i: nat, r: Sessions)
    requires AllFit(cfg, ds) && i < |ds|
    requires forall u :: u in r ==> Valid(r[u]) && r[u].running && r[u].blocks == [] && r[u].cfg == cfg
    requires FromDevices(cfg, ds, i, r)
    ensures var a := Try(cfg, ds[i]);
            var next := if a.Registered? then r[a.uid := a.session] else r;
            && (forall u :: u in next ==> Valid(next[u]) && next[u].running && next[u].blocks == [] && next[u].cfg == cfg)
            && FromDevices(cfg, ds, i + 1, next)
  {
    var attempts := Attempts(cfg, ds);
    var a := Try(cfg, ds[i]);
    assert attempts[i] == a;
    if a.Registered? {
      TraceStep(attempts, i, r);
    } else {
      SkipStep(attempts, i, r);
    }
  }

  /** Adding the entry of an attempt that registered keeps every entry
      traceable to the last attempt that registered its uid. */
  lemma TraceStep(attempts: seq<Attempt>, i: nat, r: Sessions)
    requires i < |attempts| && attempts[i].Registered?
    requires Traced(attempts, i, r)
    ensures Traced(attempts, i + 1, r[attempts[i].uid := attempts[i].session])
  {
    var uid := attempts[i].uid;
    var next := r[uid := attempts[i].session];
    forall u | u in next
      ensures exists k ::
                && 0 <= k < i + 1 && attempts[k].Registered?
                && attempts[k].uid == u && next[u] == attempts[k].session
                && forall j :: k < j < i + 1 && attempts[j].Registered? ==> attempts[j].uid != u
    {
      if u == uid {
        assert attempts[i].uid == u && next[u] == attempts[i].session;
      } else {
        var k :| && 0 <= k < i && attempts[k].Registered?
                 && attempts[k].uid == u && r[u] == attempts[k].session
                 && forall j :: k < j < i && attempts[j].Registered? ==> attempts[j].uid != u;
        assert next[u] == r[u];
      }
    }
  }

  /** An attempt that does not register leaves every entry traceable. */
  lemma SkipStep(attempts: seq<Attempt>, i: nat, r: Sessions)
    requires i < |attempts| && !attempts[i].Registered?
    requires Traced(attempts, i, r)
    ensures Traced(attempts, i + 1, r)
  {
    forall u | u in r
      ensures exists k ::
                && 0 <= k < i + 1 && attempts[k].Registered?
                && attempts[k].uid == u && r[u] == attempts[k].session
                && forall j :: k < j < i + 1 && attempts[j].Registered? ==> attempts[j].uid != u
    {
      var k :| && 0 <= k < i && attempts[k].Registered?
               && attempts[k].uid == u && r[u] == attempts[k].session
               && forall j :: k < j < i && attempts[j].Registered? ==> attempts[j].uid != u;
      assert attempts[k].uid == u;
    }
  }

  /** Trying one more device adds its uid when it registers. */
  lemma SuccessesStep(cfg: Config, ds: seq<Device>, i: nat)
    requires AllFit(cfg, ds) && i < |ds|
    ensures var a := Try(cfg, ds[i]);
            Successes(cfg, ds[..i + 1]) == Successes(cfg, ds[..i]) + (if a.Registered? then [a.uid] else [])
  {
    assert ds[..i + 1][..i] == ds[..i];
  }

  /** Where the loop stops, the uids found so far are the caller's share. */
  lemma TakeAtExit(cfg: Config, ds: seq<Device>, i: nat, uids: seq<Uid>, maxCount: int)
    requires AllFit(cfg, ds) && i <= |ds|
    requires uids == Successes(cfg, ds[..i])
    requires i > 0 ==> |uids| <= maxCount
    requires i == |ds| || maxCount <= |uids|
    ensures uids == Take(Successes(cfg, ds), maxCount)
  {
    if i == |ds| {
      assert ds[..i] == ds;
    } else {
      SuccessesPrefix(cfg, ds, i);
    }
  }

  /** Two cameras where the second fails to claim its second interface: the
      first camera's uid is still the whole result. */
  lemma PartialFailure(cfg: Config, d1: Device, d2: Device)
    requires Fits(cfg, d1) && Fits(cfg, d2)
    requires Try(cfg, d1).Registered?
    requires d2.vendor == PixyVid && d2.product == PixyPid
    requires d2.usb.open == 0 && d2.usb.unconfigure == 0 && d2.usb.configure == 0
    requires d2.usb.claim0 == 0 && d2.usb.claim1 != 0
    ensures Try(cfg, d2) == Failed(Claim1, [Interface0, Handle])
    ensures Successes(cfg, [d1, d2]) == [Try(cfg, d1).uid]
  {
    assert Try(cfg, d2).Failed?;
    assert [d1, d2][..1] == [d1];
    assert [d1][..0] == [];
    assert Successes(cfg, [d1]) == Successes(cfg, []) + [Try(cfg, d1).uid];
  }
}
