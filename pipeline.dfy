/**
 * The module-level state machine of myo_raw_osc.py: the settings, the current
 * orientation, the two bounded history trackers with their counters, the
 * OSC client, and the handlers that update them.
 *
 * `State` is the value of all of that at one moment. Each handler is a step
 * function on `State`; `RunEmg` and `RunImu` call a handler list in order, as
 * the device driver does for every decoded sample, and stop once a handler has
 * ended the process. The class `Session` holds the same variables as fields and
 * its methods change them in place; `Session.Snapshot()` is their `State`.
 * The class `MyoRaw` holds only the two handler lists of the device driver.
 */
module Pipeline {
  import opened Wrappers
  import opened Sensor
  import opened History
  import opened Messages
  import opened Options

  /** The bound on each history list. */
  const MAX_HIST: nat := 100

  datatype EmgHandler = ProcEmgVerb | ProcEmgHist | ProcEmgOsc

  datatype ImuHandler = ProcImuTransform | ProcImuVerb | ProcImuHist | ProcImuOsc

  /** The UDP destination an OSC client is connected to. */
  datatype Endpoint = Endpoint(ip: string, port: int)

  /**
   * How the process ended: the client reported a send failure (the handler
   * prints the configured address and port, then exits), an OSC handler ran
   * with no client ever created (Python's NameError), or the client could not
   * connect to the configured endpoint at start-up (an uncaught socket error).
   */
  datatype Halt = ClientMissing(ip: string, port: int) | NoClient | ConnectFailed(ip: string, port: int)

  datatype State = State(
    send: int, ip: string, port: int, maxHist: nat,
    client: Option<Endpoint>,
    orientation: seq<real>,
    nEmg: nat, histEmg: seq<seq<int>>, histMoving: seq<bool>,
    nImu: nat, histOrientation: seq<seq<real>>, histAcc: seq<Vec3>,
    sent: seq<Message>,
    halted: Option<Halt>)

  /** The state right after the option loop: empty lists, zero counters, no orientation yet. */
  function Initial(config: Config, maxHist: nat): (s: State)
    ensures s.send == config.send && s.ip == config.ip && s.port == config.port && s.maxHist == maxHist
    ensures s.nEmg == 0 && s.nImu == 0 && s.sent == [] && s.halted.None? && s.client.None?
  {
    State(config.send, config.ip, config.port, maxHist, None, [], 0, [], [], 0, [], [], [], None)
  }

  /** True when a client exists exactly when sending is on, connected to the configured endpoint. */
  predicate ClientWired(s: State) {
    s.client == if s.send != 0 then Some(Endpoint(s.ip, s.port)) else None
  }

  /** `client.send(msg)`, whose success is the input `delivered`. */
  function OscSend(s: State, msg: Message, delivered: bool): (r: State)
    ensures r.sent == s.sent + [msg] <==> s.client.Some? && delivered
    ensures r.sent == s.sent || r.sent == s.sent + [msg]
    ensures s.halted.None? ==> (r.halted.None? <==> s.client.Some? && delivered)
    ensures r.(sent := s.sent, halted := s.halted) == s
  {
    if s.client.None? then s.(halted := Some(NoClient))
    else if delivered then s.(sent := s.sent + [msg])
    else s.(halted := Some(ClientMissing(s.ip, s.port)))
  }

  /** `proc_emg_hist`. */
  function EmgHistStep(s: State, emg: seq<int>, moving: bool): (r: State)
    ensures r.nEmg == s.nEmg + 1
    ensures |r.histEmg| == |r.histMoving| <== |s.histEmg| == |s.histMoving|
    ensures r.(nEmg := s.nEmg, histEmg := s.histEmg, histMoving := s.histMoving) == s
  {
    var n := s.nEmg + 1;
    s.(nEmg := n,
       histEmg := InsertFrontCapped(s.histEmg, emg, n, s.maxHist),
       histMoving := InsertFrontCapped(s.histMoving, moving, n, s.maxHist))
  }

  /** `proc_imu_hist`: records the current orientation and the acceleration. */
  function ImuHistStep(s: State, acc: Vec3): (r: State)
    ensures r.nImu == s.nImu + 1
    ensures s.nImu >= s.maxHist ==> r.histOrientation == s.histOrientation && r.histAcc == s.histAcc
    ensures s.nImu < s.maxHist ==>
      r.histOrientation == s.histOrientation + [s.orientation] && r.histAcc == s.histAcc + [acc]
    ensures r.(nImu := s.nImu, histOrientation := s.histOrientation, histAcc := s.histAcc) == s
  {
    var n := s.nImu + 1;
    AppendBackNetEffect(s.histOrientation, s.orientation, n, s.maxHist);
    AppendBackNetEffect(s.histAcc, acc, n, s.maxHist);
    s.(nImu := n,
       histOrientation := AppendBackCapped(s.histOrientation, s.orientation, n, s.maxHist),
       histAcc := AppendBackCapped(s.histAcc, acc, n, s.maxHist))
  }

  /** One EMG handler; the verbose one only prints. */
  function EmgStep(s: State, h: EmgHandler, emg: seq<int>, moving: bool, delivered: bool): (r: State)
    ensures h != ProcEmgHist ==> r.nEmg == s.nEmg && r.histEmg == s.histEmg && r.histMoving == s.histMoving
    ensures h != ProcEmgOsc ==> r.sent == s.sent && r.halted == s.halted
    ensures r.orientation == s.orientation && r.nImu == s.nImu
    ensures r.histOrientation == s.histOrientation && r.histAcc == s.histAcc
    ensures r.client == s.client && r.send == s.send && r.ip == s.ip && r.port == s.port
    ensures r.maxHist == s.maxHist
  {
    match h
    case ProcEmgVerb => s
    case ProcEmgHist => EmgHistStep(s, emg, moving)
    case ProcEmgOsc => OscSend(s, EmgMessage(emg), delivered)
  }

  /**
   * One IMU handler; the verbose one only prints. No handler reads the
   * angular rate, so it is not an argument here.
   */
  function ImuStep(s: State, h: ImuHandler, quat: Quat, acc: Vec3, delivered: bool,
                   quat2euler: Quat -> Euler): (r: State)
    ensures h == ProcImuTransform ==> r == s.(orientation := quat2euler(quat).Values())
    ensures h != ProcImuTransform ==> r.orientation == s.orientation
    ensures h != ProcImuHist ==> r.nImu == s.nImu && r.histOrientation == s.histOrientation && r.histAcc == s.histAcc
    ensures h != ProcImuOsc ==> r.sent == s.sent && r.halted == s.halted
    ensures r.nEmg == s.nEmg && r.histEmg == s.histEmg && r.histMoving == s.histMoving
    ensures r.client == s.client && r.send == s.send && r.ip == s.ip && r.port == s.port
    ensures r.maxHist == s.maxHist
  {
    match h
    case ProcImuTransform => s.(orientation := quat2euler(quat).Values())
    case ProcImuVerb => s
    case ProcImuHist => ImuHistStep(s, acc)
    case ProcImuOsc => OscSend(s, ImuMessage(s.orientation, acc), delivered)
  }

  /** Dispatch of one EMG sample: each handler in order, until one ends the process. */
  function RunEmg(s: State, hs: seq<EmgHandler>, emg: seq<int>, moving: bool, delivered: bool): (r: State)
    ensures s.halted.Some? ==> r == s
    ensures s.sent <= r.sent
    ensures r.halted.None? ==> |r.sent| - |s.sent| <= |hs|
    decreases |hs|
  {
    if hs == [] || s.halted.Some? then s
    else RunEmg(EmgStep(s, hs[0], emg, moving, delivered), hs[1..], emg, moving, delivered)
  }

  /** Dispatch of one IMU sample: each handler in order, until one ends the process. */
  function RunImu(s: State, hs: seq<ImuHandler>, quat: Quat, acc: Vec3, delivered: bool,
                  quat2euler: Quat -> Euler): (r: State)
    ensures s.halted.Some? ==> r == s
    ensures s.sent <= r.sent
    ensures r.halted.None? ==> |r.sent| - |s.sent| <= |hs|
    decreases |hs|
  {
    if hs == [] || s.halted.Some? then s
    else RunImu(ImuStep(s, hs[0], quat, acc, delivered, quat2euler), hs[1..], quat, acc, delivered, quat2euler)
  }

  /** The EMG handlers the main process registers, in order. */
  function WiredEmg(send: int): (hs: seq<EmgHandler>)
    ensures |hs| == if send != 0 then 3 else 2
  {
    [ProcEmgVerb, ProcEmgHist] + if send != 0 then [ProcEmgOsc] else []
  }

  /** The IMU handlers the main process registers, in order. */
  function WiredImu(send: int): (hs: seq<ImuHandler>)
    ensures |hs| == if send != 0 then 4 else 3
  {
    [ProcImuTransform, ProcImuVerb, ProcImuHist] + if send != 0 then [ProcImuOsc] else []
  }

  /**
   * The registration order: the orientation transform comes first and only
   * once, so every later IMU handler reads the orientation of the same sample;
   * the OSC handlers are present exactly when sending is on.
   */
  lemma WiredOrder(send: int)
    ensures WiredImu(send)[0] == ProcImuTransform && ProcImuTransform !in WiredImu(send)[1..]
    ensures ProcImuOsc in WiredImu(send) <==> send != 0
    ensures ProcEmgOsc in WiredEmg(send) <==> send != 0
    ensures WiredEmg(send)[..2] == [ProcEmgVerb, ProcEmgHist]
    ensures WiredImu(send)[..3] == [ProcImuTransform, ProcImuVerb, ProcImuHist]
  {
  }

  /** EMG handlers never touch the IMU variables, the client or the settings. */
  lemma {:induction false} EmgRunKeepsImu(s: State, hs: seq<EmgHandler>, emg: seq<int>, moving: bool, delivered: bool)
    ensures var r := RunEmg(s, hs, emg, moving, delivered);
      r.orientation == s.orientation && r.nImu == s.nImu &&
      r.histOrientation == s.histOrientation && r.histAcc == s.histAcc &&
      r.client == s.client && r.send == s.send && r.ip == s.ip && r.port == s.port &&
      r.maxHist == s.maxHist
    decreases |hs|
  {
    if hs != [] && s.halted.None? {
      EmgRunKeepsImu(EmgStep(s, hs[0], emg, moving, delivered), hs[1..], emg, moving, delivered);
    }
  }

  /** IMU handlers never touch the EMG variables, the client or the settings. */
  lemma {:induction false} ImuRunKeepsEmg(s: State, hs: seq<ImuHandler>, quat: Quat, acc: Vec3, delivered: bool,
                                          quat2euler: Quat -> Euler)
    ensures var r := RunImu(s, hs, quat, acc, delivered, quat2euler);
      r.nEmg == s.nEmg && r.histEmg == s.histEmg && r.histMoving == s.histMoving &&
      r.client == s.client && r.send == s.send && r.ip == s.ip && r.port == s.port &&
      r.maxHist == s.maxHist
    decreases |hs|
  {
    if hs != [] && s.halted.None? {
      ImuRunKeepsEmg(ImuStep(s, hs[0], quat, acc, delivered, quat2euler), hs[1..], quat, acc, delivered, quat2euler);
    }
  }

  /**
   * One EMG sample through the registered handlers: the counter goes up by
   * one, the sample enters the front of both lists, and with sending on the
   * message "/myo/emg" with the readings is sent, or the process ends with
   * the configured address and port reported. With sending off nothing is
   * sent and nothing can end the process.
   */
  lemma WiredEmgDispatch(s: State, emg: seq<int>, moving: bool, delivered: bool)
    requires s.halted.None? && ClientWired(s)
    ensures var r := RunEmg(s, WiredEmg(s.send), emg, moving, delivered);
      && r.nEmg == s.nEmg + 1
      && r.histEmg == InsertFrontCapped(s.histEmg, emg, s.nEmg + 1, s.maxHist)
      && r.histMoving == InsertFrontCapped(s.histMoving, moving, s.nEmg + 1, s.maxHist)
      && r.sent == (if s.send != 0 && delivered then s.sent + [EmgMessage(emg)] else s.sent)
      && r.halted == (if s.send != 0 && !delivered then Some(ClientMissing(s.ip, s.port)) else None)
      && r.nImu == s.nImu && r.histOrientation == s.histOrientation && r.histAcc == s.histAcc
      && r.orientation == s.orientation
  {
    var hs := WiredEmg(s.send);
    var s1 := EmgStep(s, ProcEmgVerb, emg, moving, delivered);
    var s2 := EmgStep(s1, ProcEmgHist, emg, moving, delivered);
    assert hs[0] == ProcEmgVerb && hs[1..][0] == ProcEmgHist && hs[1..][1..] == hs[2..];
    assert RunEmg(s, hs, emg, moving, delivered) == RunEmg(s1, hs[1..], emg, moving, delivered);
    assert RunEmg(s1, hs[1..], emg, moving, delivered) == RunEmg(s2, hs[2..], emg, moving, delivered);
    if s.send != 0 {
      var s3 := EmgStep(s2, ProcEmgOsc, emg, moving, delivered);
      assert hs[2..][0] == ProcEmgOsc && hs[2..][1..] == [];
      assert RunEmg(s2, hs[2..], emg, moving, delivered) == RunEmg(s3, [], emg, moving, delivered);
    } else {
      assert hs[2..] == [];
    }
  }

  /**
   * One IMU sample through the registered handlers: the orientation becomes
   * the conversion of this sample's quaternion, the counter goes up by one,
   * that orientation and the acceleration are appended unless the lists are
   * full, and with sending on the message "/myo/imu" is sent with that
   * orientation followed by the acceleration, six values in all.
   */
  lemma WiredImuDispatch(s: State, quat: Quat, acc: Vec3, delivered: bool, quat2euler: Quat -> Euler)
    requires s.halted.None? && ClientWired(s)
    ensures var r := RunImu(s, WiredImu(s.send), quat, acc, delivered, quat2euler);
      var o := quat2euler(quat).Values();
      && r.orientation == o
      && r.nImu == s.nImu + 1
      && r.histOrientation == AppendBackCapped(s.histOrientation, o, s.nImu + 1, s.maxHist)
      && r.histAcc == AppendBackCapped(s.histAcc, acc, s.nImu + 1, s.maxHist)
      && r.sent == (if s.send != 0 && delivered then s.sent + [ImuMessage(o, acc)] else s.sent)
      && |ImuMessage(o, acc).payload| == 6
      && r.halted == (if s.send != 0 && !delivered then Some(ClientMissing(s.ip, s.port)) else None)
      && r.nEmg == s.nEmg && r.histEmg == s.histEmg && r.histMoving == s.histMoving
  {
    var hs := WiredImu(s.send);
    var s1 := ImuStep(s, ProcImuTransform, quat, acc, delivered, quat2euler);
    var s2 := ImuStep(s1, ProcImuVerb, quat, acc, delivered, quat2euler);
    var s3 := ImuStep(s2, ProcImuHist, quat, acc, delivered, quat2euler);
    assert hs[0] == ProcImuTransform && hs[1..][0] == ProcImuVerb && hs[2..][0] == ProcImuHist;
    assert hs[1..][1..] == hs[2..] && hs[2..][1..] == hs[3..];
    assert RunImu(s, hs, quat, acc, delivered, quat2euler) == RunImu(s1, hs[1..], quat, acc, delivered, quat2euler);
    assert RunImu(s1, hs[1..], quat, acc, delivered, quat2euler) == RunImu(s2, hs[2..], quat, acc, delivered, quat2euler);
    assert RunImu(s2, hs[2..], quat, acc, delivered, quat2euler) == RunImu(s3, hs[3..], quat, acc, delivered, quat2euler);
    if s.send != 0 {
      var s4 := ImuStep(s3, ProcImuOsc, quat, acc, delivered, quat2euler);
      assert hs[3..][0] == ProcImuOsc && hs[3..][1..] == [];
      assert RunImu(s3, hs[3..], quat, acc, delivered, quat2euler) == RunImu(s4, [], quat, acc, delivered, quat2euler);
    } else {
      assert hs[3..] == [];
    }
  }

  /**
   * The history invariant, given the log of every sample each history
   * handler has received (oldest first): the counters count the samples, the
   * EMG lists hold the last `maxHist` of them newest first, and the IMU lists
   * hold the first `maxHist` of them oldest first.
   */
  ghost predicate Windows(s: State, emgLog: seq<seq<int>>, movingLog: seq<bool>,
                          orientationLog: seq<seq<real>>, accLog: seq<Vec3>)
  {
    && s.nEmg == |emgLog| == |movingLog|
    && s.histEmg == NewestFirst(emgLog, s.maxHist)
    && s.histMoving == NewestFirst(movingLog, s.maxHist)
    && s.nImu == |orientationLog| == |accLog|
    && s.histOrientation == OldestFirst(orientationLog, s.maxHist)
    && s.histAcc == OldestFirst(accLog, s.maxHist)
  }

  /** What the invariant says about the lengths and the most recent EMG sample. */
  lemma WindowsBounds(s: State, emgLog: seq<seq<int>>, movingLog: seq<bool>,
                      orientationLog: seq<seq<real>>, accLog: seq<Vec3>)
    requires Windows(s, emgLog, movingLog, orientationLog, accLog)
    ensures |s.histEmg| == |s.histMoving| == Min(s.nEmg, s.maxHist)
    ensures |s.histOrientation| == |s.histAcc| == Min(s.nImu, s.maxHist)
    ensures s.maxHist > 0 && s.nEmg > 0 ==>
      s.histEmg[0] == emgLog[|emgLog| - 1] && s.histMoving[0] == movingLog[|movingLog| - 1]
    ensures s.maxHist > 0 && s.nImu > 0 ==>
      s.histOrientation[0] == orientationLog[0] && s.histAcc[0] == accLog[0]
  {
    var e, mv := NewestFirst(emgLog, s.maxHist), NewestFirst(movingLog, s.maxHist);
    var o, a := OldestFirst(orientationLog, s.maxHist), OldestFirst(accLog, s.maxHist);
    assert |e| == |mv| == Min(s.nEmg, s.maxHist);
    assert |o| == |a| == Min(s.nImu, s.maxHist);
    if s.maxHist > 0 && s.nEmg > 0 {
      assert e[0] == emgLog[|emgLog| - 1];
      assert mv[0] == movingLog[|movingLog| - 1];
    }
    if s.maxHist > 0 && s.nImu > 0 {
      assert o[0] == orientationLog[0];
      assert a[0] == accLog[0];
    }
  }

  lemma InitialWindows(config: Config, maxHist: nat)
    ensures Windows(Initial(config, maxHist), [], [], [], [])
  {
  }

  /** `proc_emg_hist` keeps the invariant once the sample is logged. */
  lemma EmgHistKeepsWindows(s: State, emgLog: seq<seq<int>>, movingLog: seq<bool>,
                            orientationLog: seq<seq<real>>, accLog: seq<Vec3>,
                            emg: seq<int>, moving: bool)
    requires Windows(s, emgLog, movingLog, orientationLog, accLog)
    ensures Windows(EmgHistStep(s, emg, moving), emgLog + [emg], movingLog + [moving], orientationLog, accLog)
  {
    InsertFrontKeepsWindow(emgLog, emg, s.maxHist);
    InsertFrontKeepsWindow(movingLog, moving, s.maxHist);
  }

  /** `proc_imu_hist` keeps the invariant once the current orientation and the acceleration are logged. */
  lemma ImuHistKeepsWindows(s: State, emgLog: seq<seq<int>>, movingLog: seq<bool>,
                            orientationLog: seq<seq<real>>, accLog: seq<Vec3>, acc: Vec3)
    requires Windows(s, emgLog, movingLog, orientationLog, accLog)
    ensures Windows(ImuHistStep(s, acc), emgLog, movingLog, orientationLog + [s.orientation], accLog + [acc])
  {
    AppendBackKeepsPrefix(orientationLog, s.orientation, s.maxHist);
    AppendBackKeepsPrefix(accLog, acc, s.maxHist);
  }

  /**
   * `proc_emg_hist` called once per sample, `emgs[i]` with `movings[i]`, in
   * order from `s`.
   */
  function PushEmg(s: State, emgs: seq<seq<int>>, movings: seq<bool>): (r: State)
    requires |emgs| == |movings|
    ensures r.nEmg == s.nEmg + |emgs| && r.maxHist == s.maxHist
    decreases |emgs|
  {
    if emgs == [] then s
    else EmgHistStep(PushEmg(s, emgs[..|emgs| - 1], movings[..|movings| - 1]),
                     emgs[|emgs| - 1], movings[|movings| - 1])
  }

  /** One `proc_emg_hist` call on lists that are the windows of `emgLog` and `movingLog`. */
  lemma EmgHistStepWindow(s: State, emgLog: seq<seq<int>>, movingLog: seq<bool>, emg: seq<int>, moving: bool)
    requires s.nEmg == |emgLog| == |movingLog|
    requires s.histEmg == NewestFirst(emgLog, s.maxHist) && s.histMoving == NewestFirst(movingLog, s.maxHist)
    ensures var r := EmgHistStep(s, emg, moving);
      && r.histEmg == NewestFirst(emgLog + [emg], s.maxHist)
      && r.histMoving == NewestFirst(movingLog + [moving], s.maxHist)
  {
    InsertFrontKeepsWindow(emgLog, emg, s.maxHist);
    InsertFrontKeepsWindow(movingLog, moving, s.maxHist);
  }

  /**
   * From the start state, the EMG lists after any run of `proc_emg_hist`
   * calls are the last `maxHist` samples, newest first.
   */
  lemma {:induction false} PushEmgFromStart(config: Config, maxHist: nat, emgs: seq<seq<int>>, movings: seq<bool>)
    requires |emgs| == |movings|
    ensures var r := PushEmg(Initial(config, maxHist), emgs, movings);
      && r.nEmg == |emgs| && r.maxHist == maxHist
      && r.histEmg == NewestFirst(emgs, maxHist) && r.histMoving == NewestFirst(movings, maxHist)
    decreases |emgs|
  {
    var s0 := Initial(config, maxHist);
    if emgs == [] {
      assert NewestFirst(emgs, maxHist) == [] && NewestFirst(movings, maxHist) == [];
    } else {
      var e, mv := emgs[..|emgs| - 1], movings[..|movings| - 1];
      var x, y := emgs[|emgs| - 1], movings[|movings| - 1];
      assert e + [x] == emgs && mv + [y] == movings;
      var p := PushEmg(s0, e, mv);
      assert PushEmg(s0, emgs, movings) == EmgHistStep(p, x, y);
      PushEmgFromStart(config, maxHist, e, mv);
      EmgHistStepWindow(p, e, mv, x, y);
    }
  }

  /**
   * With the bound of 100, 150 EMG samples pushed from the start leave exactly
   * the last 100 of them in both lists, the newest at index 0.
   */
  lemma EmgKeepsLast100Of150(config: Config, emgs: seq<seq<int>>, movings: seq<bool>)
    requires |emgs| == |movings| == 150
    ensures var r := PushEmg(Initial(config, MAX_HIST), emgs, movings);
      && r.nEmg == 150 && |r.histEmg| == |r.histMoving| == 100
      && (forall i :: 0 <= i < 100 ==> r.histEmg[i] == emgs[149 - i])
      && (forall i :: 0 <= i < 100 ==> r.histMoving[i] == movings[149 - i])
  {
    PushEmgFromStart(config, MAX_HIST, emgs, movings);
    var r := PushEmg(Initial(config, MAX_HIST), emgs, movings);
    assert Min(150, 100) == 100;
    forall i | 0 <= i < 100
      ensures r.histEmg[i] == emgs[149 - i] && r.histMoving[i] == movings[149 - i]
    {
      assert r.histEmg[i] == NewestFirst(emgs, MAX_HIST)[i];
      assert r.histMoving[i] == NewestFirst(movings, MAX_HIST)[i];
    }
  }

  /** The device driver's handler registry. */
  class MyoRaw {
    var emgHandlers: seq<EmgHandler>
    var imuHandlers: seq<ImuHandler>

    constructor ()
      ensures emgHandlers == [] && imuHandlers == []
    {
      emgHandlers := [];
      imuHandlers := [];
    }

    method AddEmgHandler(h: EmgHandler)
      modifies this
      ensures emgHandlers == old(emgHandlers) + [h] && imuHandlers == old(imuHandlers)
    {
      emgHandlers := emgHandlers + [h];
    }

    method AddImuHandler(h: ImuHandler)
      modifies this
      ensures imuHandlers == old(imuHandlers) + [h] && emgHandlers == old(emgHandlers)
    {
      imuHandlers := imuHandlers + [h];
    }
  }

  /** The module-level variables of myo_raw_osc.py and its handlers. */
  class Session {
    const send: int
    const ip: string
    const port: int
    const maxHist: nat
    /** `transforms3d.taitbryan.quat2euler`, taken as given. */
    const quat2euler: Quat -> Euler

    var client: Option<Endpoint>
    var orientation: seq<real>
    var nEmg: nat
    var histEmg: seq<seq<int>>
    var histMoving: seq<bool>
    var nImu: nat
    var histOrientation: seq<seq<real>>
    var histAcc: seq<Vec3>
    /** The messages the client delivered, in order. */
    var sent: seq<Message>
    var halted: Option<Halt>

    /** Every sample each history handler has received, oldest first. */
    ghost var emgLog: seq<seq<int>>
    ghost var movingLog: seq<bool>
    ghost var orientationLog: seq<seq<real>>
    ghost var accLog: seq<Vec3>

    /** The history invariant over the logs. */
    ghost predicate Valid()
      reads this
    {
      Windows(Snapshot(), emgLog, movingLog, orientationLog, accLog)
    }

    function Snapshot(): State
      reads this
    {
      State(send, ip, port, maxHist, client, orientation, nEmg, histEmg, histMoving,
            nImu, histOrientation, histAcc, sent, halted)
    }

    constructor (config: Config, maxHist: nat, quat2euler: Quat -> Euler)
      ensures Valid() && Snapshot() == Initial(config, maxHist) && this.quat2euler == quat2euler
      ensures emgLog == [] && movingLog == [] && orientationLog == [] && accLog == []
    {
      send, ip, port := config.send, config.ip, config.port;
      this.maxHist := maxHist;
      this.quat2euler := quat2euler;
      client := None;
      orientation := [];
      nEmg, histEmg, histMoving := 0, [], [];
      nImu, histOrientation, histAcc := 0, [], [];
      sent := [];
      halted := None;
      emgLog, movingLog, orientationLog, accLog := [], [], [], [];
    }

    /** `proc_imu_transform`: the orientation depends on the quaternion alone. */
    method ImuTransform(quat: Quat, gyro: Vec3, acc: Vec3)
      requires Valid()
      modifies this
      ensures Valid() && Snapshot() == ImuStep(old(Snapshot()), ProcImuTransform, quat, acc, false, quat2euler)
      ensures orientation == quat2euler(quat).Values()
      ensures emgLog == old(emgLog) && movingLog == old(movingLog)
      ensures orientationLog == old(orientationLog) && accLog == old(accLog)
    {
      orientation := quat2euler(quat).Values();
    }

    /** `proc_emg_hist`. */
    method EmgHist(emg: seq<int>, moving: bool)
      requires Valid()
      modifies this
      ensures Valid() && Snapshot() == EmgHistStep(old(Snapshot()), emg, moving)
      ensures emgLog == old(emgLog) + [emg] && movingLog == old(movingLog) + [moving]
      ensures orientationLog == old(orientationLog) && accLog == old(accLog)
    {
      EmgHistKeepsWindows(Snapshot(), emgLog, movingLog, orientationLog, accLog, emg, moving);
      var n := nEmg + 1;
      var e := [emg] + histEmg;
      var mv := [moving] + histMoving;
      if n > maxHist {
        e := e[..|e| - 1];
        mv := mv[..|mv| - 1];
      }
      assert e == InsertFrontCapped(histEmg, emg, n, maxHist);
      assert mv == InsertFrontCapped(histMoving, moving, n, maxHist);
      nEmg, histEmg, histMoving := n, e, mv;
      emgLog, movingLog := emgLog + [emg], movingLog + [moving];
    }

    /**
     * `proc_imu_hist`: appends the current orientation and the acceleration,
     * then pops the back entry once the counter exceeds the bound, so that a
     * call with the lists already full leaves them as they were.
     */
    method ImuHist(quat: Quat, gyro: Vec3, acc: Vec3)
      requires Valid()
      modifies this
      ensures Valid() && Snapshot() == ImuHistStep(old(Snapshot()), acc)
      ensures orientationLog == old(orientationLog) + [old(orientation)] && accLog == old(accLog) + [acc]
      ensures emgLog == old(emgLog) && movingLog == old(movingLog)
    {
      ImuHistKeepsWindows(Snapshot(), emgLog, movingLog, orientationLog, accLog, acc);
      var n := nImu + 1;
      var o := histOrientation + [orientation];
      var a := histAcc + [acc];
      if n > maxHist {
        o := o[..|o| - 1];
        a := a[..|a| - 1];
      }
      assert o == AppendBackCapped(histOrientation, orientation, n, maxHist);
      assert a == AppendBackCapped(histAcc, acc, n, maxHist);
      nImu, histOrientation, histAcc := n, o, a;
      orientationLog, accLog := orientationLog + [orientation], accLog + [acc];
    }

    /** `client.send(msg)` inside the handlers' `try`, with the `except` that reports and exits. */
    method Send(msg: Message, delivered: bool)
      modifies this
      ensures Snapshot() == OscSend(old(Snapshot()), msg, delivered)
      ensures emgLog == old(emgLog) && movingLog == old(movingLog)
      ensures orientationLog == old(orientationLog) && accLog == old(accLog)
    {
      if client.None? {
        halted := Some(NoClient);
      } else if delivered {
        sent := sent + [msg];
      } else {
        halted := Some(ClientMissing(ip, port));
      }
    }

    /** `proc_emg_osc`. */
    method EmgOsc(emg: seq<int>, moving: bool, delivered: bool)
      requires Valid()
      modifies this
      ensures Valid() && Snapshot() == OscSend(old(Snapshot()), EmgMessage(emg), delivered)
      ensures emgLog == old(emgLog) && movingLog == old(movingLog)
      ensures orientationLog == old(orientationLog) && accLog == old(accLog)
    {
      var msg := new OscMessage();
      msg.SetAddress(EMG_ADDRESS);
      msg.Append(Ints(emg));
      assert msg.Contents() == EmgMessage(emg);
      Send(msg.Contents(), delivered);
    }

    /** `proc_imu_osc`: the current orientation, then the acceleration. */
    method ImuOsc(quat: Quat, gyro: Vec3, acc: Vec3, delivered: bool)
      requires Valid()
      modifies this
      ensures Valid() && Snapshot() == OscSend(old(Snapshot()), ImuMessage(old(orientation), acc), delivered)
      ensures emgLog == old(emgLog) && movingLog == old(movingLog)
      ensures orientationLog == old(orientationLog) && accLog == old(accLog)
    {
      var msg := new OscMessage();
      msg.SetAddress(IMU_ADDRESS);
      msg.Append(Floats(orientation));
      msg.Append(Floats(acc.Values()));
      assert msg.Contents() == ImuMessage(orientation, acc);
      Send(msg.Contents(), delivered);
    }

    /**
     * The driver's dispatch of one EMG sample to the handlers of `m`, in
     * registration order, stopping once a handler has ended the process.
     */
    method DispatchEmg(m: MyoRaw, emg: seq<int>, moving: bool, delivered: bool)
      requires Valid()
      modifies this
      ensures Valid() && Snapshot() == RunEmg(old(Snapshot()), m.emgHandlers, emg, moving, delivered)
      ensures orientationLog == old(orientationLog) && accLog == old(accLog)
    {
      var hs := m.emgHandlers;
      var i := 0;
      while i < |hs| && halted.None?
        invariant 0 <= i <= |hs|
        invariant Valid()
        invariant RunEmg(Snapshot(), hs[i..], emg, moving, delivered) == RunEmg(old(Snapshot()), hs, emg, moving, delivered)
        invariant orientationLog == old(orientationLog) && accLog == old(accLog)
        decreases |hs| - i
      {
        assert hs[i..][0] == hs[i] && hs[i..][1..] == hs[i + 1..];
        match hs[i] {
          case ProcEmgVerb =>
          case ProcEmgHist => EmgHist(emg, moving);
          case ProcEmgOsc => EmgOsc(emg, moving, delivered);
        }
        i := i + 1;
      }
    }

    /**
     * The driver's dispatch of one IMU sample to the handlers of `m`, in
     * registration order, stopping once a handler has ended the process.
     */
    method DispatchImu(m: MyoRaw, quat: Quat, gyro: Vec3, acc: Vec3, delivered: bool)
      requires Valid()
      modifies this
      ensures Valid() && Snapshot() == RunImu(old(Snapshot()), m.imuHandlers, quat, acc, delivered, quat2euler)
      ensures emgLog == old(emgLog) && movingLog == old(movingLog)
    {
      var hs := m.imuHandlers;
      var i := 0;
      while i < |hs| && halted.None?
        invariant 0 <= i <= |hs|
        invariant Valid()
        invariant RunImu(Snapshot(), hs[i..], quat, acc, delivered, quat2euler)
               == RunImu(old(Snapshot()), hs, quat, acc, delivered, quat2euler)
        invariant emgLog == old(emgLog) && movingLog == old(movingLog)
        decreases |hs| - i
      {
        assert hs[i..][0] == hs[i] && hs[i..][1..] == hs[i + 1..];
        match hs[i] {
          case ProcImuTransform => ImuTransform(quat, gyro, acc);
          case ProcImuVerb =>
          case ProcImuHist => ImuHist(quat, gyro, acc);
          case ProcImuOsc => ImuOsc(quat, gyro, acc, delivered);
        }
        i := i + 1;
      }
    }

    /**
     * The main process's registrations, interleaved as in the source. Only
     * when sending is on is a client created and connected to the configured
     * endpoint, whose success is the input `connected`; a failed connect ends
     * the process before the OSC handlers are registered.
     */
    method RegisterHandlers(m: MyoRaw, connected: bool)
      requires Valid()
      modifies this, m
      ensures Valid()
      ensures Snapshot() == old(Snapshot()).(
        client := if send != 0 && connected then Some(Endpoint(ip, port)) else old(client),
        halted := if send != 0 && !connected then Some(ConnectFailed(ip, port)) else old(halted))
      ensures m.emgHandlers == old(m.emgHandlers) + WiredEmg(if connected then send else 0)
      ensures m.imuHandlers == old(m.imuHandlers) + WiredImu(if connected then send else 0)
      ensures emgLog == old(emgLog) && movingLog == old(movingLog)
      ensures orientationLog == old(orientationLog) && accLog == old(accLog)
    {
      m.AddImuHandler(ProcImuTransform);
      m.AddEmgHandler(ProcEmgVerb);
      m.AddImuHandler(ProcImuVerb);
      m.AddEmgHandler(ProcEmgHist);
      m.AddImuHandler(ProcImuHist);
      if send != 0 {
        if !connected {
          halted := Some(ConnectFailed(ip, port));
          return;
        }
        client := Some(Endpoint(ip, port));
        m.AddEmgHandler(ProcEmgOsc);
        m.AddImuHandler(ProcImuOsc);
      }
    }
  }

  /**
   * Start-up: the option loop, then (when it completes) the initial
   * variables, the device object and the handler registrations, with the
   * history bound of 100. `connected` is whether `client.connect` succeeds.
   */
  method Launch(opts: seq<OptPair>, parseInt: string -> Option<int>, quat2euler: Quat -> Euler, connected: bool)
    returns (outcome: Outcome, session: Session?, m: MyoRaw?)
    ensures outcome == Apply(DEFAULT_CONFIG, opts, parseInt)
    ensures outcome.Run? <==> session != null
    ensures session != null ==>
      && m != null && fresh(session) && fresh(m) && session.Valid()
      && session.quat2euler == quat2euler
      && session.Snapshot() == Initial(outcome.config, MAX_HIST).(
           client := session.Snapshot().client, halted := session.Snapshot().halted)
      && (session.send == 0 || connected ==>
            && session.halted.None? && ClientWired(session.Snapshot())
            && m.emgHandlers == WiredEmg(session.send) && m.imuHandlers == WiredImu(session.send))
      && (session.send != 0 && !connected ==>
            && session.halted == Some(ConnectFailed(session.ip, session.port)) && session.client.None?
            && m.emgHandlers == WiredEmg(0) && m.imuHandlers == WiredImu(0))
  {
    outcome := ParseOptions(opts, parseInt);
    session, m := null, null;
    if outcome.Run? {
      session := new Session(outcome.config, MAX_HIST, quat2euler);
      m := new MyoRaw();
      session.RegisterHandlers(m, connected);
    }
  }
}
