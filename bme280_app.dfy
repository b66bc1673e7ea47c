/** The BME280 front end (`src_bme280/main.c`): the same argument handling,
    bus set-up and command loop as the BME680 front end, but every status of
    the vendor library is checked and a failure ends the process, the
    command is the whole line "measure\n", and a reading has no gas field.
    The driver it links against declares the same four entry points
    (`src_bme280/bme280_linux_i2c_driver.h`); their behaviour is taken to be
    that of the BME680 shim. */
module Bme280App {
  import opened CTypes
  import opened LibC
  import opened Events
  import opened LinuxI2cDriver
  import opened CommandLine
  import opened CommandLoop

  const I2C_ADDR_PRIM: uint8 := 0x76
  const I2C_ADDR_SEC: uint8 := 0x77

  /** The vendor library's success status. */
  const BME280_OK: int8 := 0

  /** The command, compared with `strcmp`: a whole line, newline included. */
  const TOKEN := "measure\n"

  /** What the vendor library does: for each start-up call, its bus
      transfers through the shim and its status; the measurement delay,
      which `bme280_cal_meas_delay` computes from the settings without a
      transfer; and for the `k`-th command, its trigger and its fetch. */
  datatype Bme280Lib = Bme280Lib(
    init: CallAnswer,
    settings: CallAnswer,
    startMode: CallAnswer,
    measDelay: uint32,
    mode: nat -> CallAnswer,
    data: nat -> CallAnswer)

  /** The call returns to its caller, with the success status. */
  predicate Succeeded(a: CallAnswer)
  {
    a.bus.Completed? && a.rslt == BME280_OK
  }

  /** Why a call that did not succeed ends the process: a short transfer
      ends it inside the call, with the shim's diagnostic, before the status
      can be checked; otherwise the front end reports the status. */
  function CallFault(a: CallAnswer, call: SensorCall): (f: Fault)
    requires !Succeeded(a)
    ensures a.bus.Completed? ==> f == SensorFailed(call, a.rslt as int) && a.rslt != BME280_OK
    ensures !a.bus.Completed? ==> f == Interruption(a.bus)
  {
    if a.bus.Completed? then SensorFailed(call, a.rslt as int) else Interruption(a.bus)
  }

  /** The library calls succeed from start-up on and for every command. */
  ghost predicate Healthy(lib: Bme280Lib)
  {
    && Succeeded(lib.init) && Succeeded(lib.settings) && Succeeded(lib.startMode)
    && forall k: nat :: Succeeded(lib.mode(k)) && Succeeded(lib.data(k))
  }

  /** The sleep of one measurement: `output_measurement` takes the delay as
      a `uint16_t`, so it sleeps the delay modulo 2^16. */
  function Wait(measDelay: uint32): (e: Event)
    ensures e == DelayMs(ToUint16(measDelay) as uint32)
    ensures measDelay < 0x1_0000 ==> e == DelayMs(measDelay)
  {
    DelayMs(ToUint16(measDelay) as uint32)
  }

  /** Start-up: initialise, apply the settings, trigger and wait the full
      delay; the first call that does not succeed ends the process, and no
      later call is made. */
  function Startup(lib: Bme280Lib): (s: seq<Event>)
    ensures |s| > 0 && s[0] == SensorInit
    ensures Terminated(s) <==> !Succeeded(lib.init) || !Succeeded(lib.settings) || !Succeeded(lib.startMode)
    ensures !Succeeded(lib.init) ==> s == [SensorInit] + Fatal(CallFault(lib.init, InitCall))
    ensures Succeeded(lib.init) && !Succeeded(lib.settings) ==>
              s == [SensorInit, SensorSettings] + Fatal(CallFault(lib.settings, SettingsCall))
    ensures Succeeded(lib.init) && Succeeded(lib.settings) && !Succeeded(lib.startMode) ==>
              s == [SensorInit, SensorSettings, Trigger] + Fatal(CallFault(lib.startMode, ModeCall))
    ensures !Terminated(s) ==> s == [SensorInit, SensorSettings, Trigger, DelayMs(lib.measDelay)]
    ensures ReadsNothing(s) && ExitOnlyAtEnd(s)
    ensures forall j :: 0 <= j < |s| ==> !s[j].Poll?
    ensures forall wait: Event :: WellOrdered(s, TOKEN, wait)
  {
    var s :=
      if !Succeeded(lib.init) then [SensorInit] + Fatal(CallFault(lib.init, InitCall))
      else if !Succeeded(lib.settings) then
        [SensorInit, SensorSettings] + Fatal(CallFault(lib.settings, SettingsCall))
      else if !Succeeded(lib.startMode) then
        [SensorInit, SensorSettings, Trigger] + Fatal(CallFault(lib.startMode, ModeCall))
      else [SensorInit, SensorSettings, Trigger, DelayMs(lib.measDelay)];
    assert forall wait: Event, j :: 0 <= j < |s| ==> Justified(s, j, TOKEN, wait);
    s
  }

  /** One command: trigger; when it succeeds wait and fetch; when that
      succeeds print the three fields. A call that does not succeed ends the
      process. */
  function Measurement(measDelay: uint32, mode: CallAnswer, data: CallAnswer): (m: seq<Event>)
    ensures Terminated(m) <==> !Succeeded(mode) || !Succeeded(data)
  {
    if !Succeeded(mode) then [Trigger] + Fatal(CallFault(mode, ModeCall))
    else
      [Trigger, Wait(measDelay), Fetch]
      + if !Succeeded(data) then Fatal(CallFault(data, DataCall)) else [Output([Temperature, Pressure, Humidity])]
  }

  /** A failed trigger means no wait and no fetch; a failed fetch means no
      reading; otherwise exactly one line with the three fields. */
  lemma MeasurementSteps(measDelay: uint32, mode: CallAnswer, data: CallAnswer)
    ensures var m := Measurement(measDelay, mode, data);
            && (!Succeeded(mode) ==> m == [Trigger] + Fatal(CallFault(mode, ModeCall)))
            && (Succeeded(mode) ==> |m| >= 3 && m[..3] == [Trigger, Wait(measDelay), Fetch])
            && (Succeeded(mode) && !Succeeded(data) ==> m[3..] == Fatal(CallFault(data, DataCall)))
            && OutputCount(m) == (if Succeeded(mode) && Succeeded(data) then 1 else 0)
            && (!Terminated(m) ==> m[|m| - 1] == Output([Temperature, Pressure, Humidity]))
  {
    var m := Measurement(measDelay, mode, data);
    if !Succeeded(mode) {
      NoOutputs(m);
    } else {
      var steps := [Trigger, Wait(measDelay), Fetch];
      var last := if !Succeeded(data) then Fatal(CallFault(data, DataCall))
                  else [Output([Temperature, Pressure, Humidity])];
      assert m == steps + last;
      OutputCountConcat(steps, last);
      NoOutputs(steps);
      if Succeeded(data) {
        assert last[1..] == [];
      } else {
        NoOutputs(last);
      }
      assert m[..3] == steps;
      assert m[3..] == last;
    }
  }

  /** A measurement starts with its trigger, fetches only after the trigger
      and the wait, prints only after the fetch, and ends the process only
      with its last event. */
  lemma MeasurementShape(measDelay: uint32, mode: CallAnswer, data: CallAnswer)
    ensures CycleShape(Measurement(measDelay, mode, data), TOKEN, Wait(measDelay))
  {
    var m := Measurement(measDelay, mode, data);
    assert forall j :: 1 <= j < |m| ==> Justified(m, j, TOKEN, Wait(measDelay));
  }

  /** Every measurement with the same wait has that shape. */
  lemma MeasurementsShaped(measDelay: uint32)
    ensures forall mode: CallAnswer, data: CallAnswer ::
              CycleShape(Measurement(measDelay, mode, data), TOKEN, Wait(measDelay))
  {
    forall mode: CallAnswer, data: CallAnswer
      ensures CycleShape(Measurement(measDelay, mode, data), TOKEN, Wait(measDelay))
    {
      MeasurementShape(measDelay, mode, data);
    }
  }

  /** The measurement run for the `k`-th accepted command: the measurement
      with the library's `k`-th answers. Every such run has the shape the
      command loop's ordering properties rely on. */
  function MeasurementCycles(lib: Bme280Lib): (cycle: nat -> seq<Event>)
    ensures forall k: nat :: cycle(k) == Measurement(lib.measDelay, lib.mode(k), lib.data(k))
    ensures WellShaped(cycle, TOKEN, Wait(lib.measDelay))
  {
    MeasurementsShaped(lib.measDelay);
    (k: nat) => Measurement(lib.measDelay, lib.mode(k), lib.data(k))
  }

  /** What follows the bus set-up, whose events are `setup`. */
  function Session(setup: seq<Event>, lib: Bme280Lib, polls: seq<int>, input: seq<char>): (t: seq<Event>)
    ensures setup <= t
    ensures Terminated(setup) ==> t == setup
    ensures !Terminated(setup) ==> setup + Startup(lib) <= t
    ensures !Terminated(setup) && Terminated(Startup(lib)) ==> t == setup + Startup(lib)
  {
    if Terminated(setup) then setup
    else if Terminated(Startup(lib)) then setup + Startup(lib)
    else setup + Startup(lib) + Loop(polls, input, TOKEN, MeasurementCycles(lib), 0)
  }

  /** The whole run of `main`; the parameters are those of the BME680
      front end's run. */
  function MainTrace(argv: seq<string>, replies: InitReplies, lib: Bme280Lib, polls: seq<int>, input: seq<char>)
    : (t: seq<Event>)
    ensures ParseArgs(argv, I2C_ADDR_PRIM, I2C_ADDR_SEC).Failure? ==>
              t == Fatal(InvalidAddress(ParseArgs(argv, I2C_ADDR_PRIM, I2C_ADDR_SEC).error))
  {
    match ParseArgs(argv, I2C_ADDR_PRIM, I2C_ADDR_SEC)
    case Failure(addr) => Fatal(InvalidAddress(addr))
    case Success(bus) => Session(InitOutcome(0, bus.deviceNr, bus.addr, replies).events, lib, polls, input)
  }

  /** `output_measurement`: a short transfer ends the process inside the
      call; otherwise the status is checked, and a failure ends the process
      before the next step. */
  method OutputMeasurement(lib: Bme280Lib, k: nat, reqDelay: uint16) returns (events: seq<Event>)
    requires reqDelay == ToUint16(lib.measDelay)
    ensures events == MeasurementCycles(lib)(k)
  {
    var mode := lib.mode(k);
    events := LibraryCall(Trigger, mode.bus);
    if Terminated(events) {
      return;
    }
    var rslt := mode.rslt;
    if rslt != BME280_OK {
      events := events + Fatal(SensorFailed(ModeCall, rslt as int));
      return;
    }
    events := events + [DelayMs(reqDelay as uint32)];
    var data := lib.data(k);
    var fetch := LibraryCall(Fetch, data.bus);
    events := events + fetch;
    if Terminated(fetch) {
      return;
    }
    rslt := data.rslt;
    if rslt != BME280_OK {
      events := events + Fatal(SensorFailed(DataCall, rslt as int));
      return;
    }
    events := events + [Output([Temperature, Pressure, Humidity])];
  }

  /** The branch of the command loop taken when input is ready: one
      `fgets`, then the end of input, the command or an invalid chunk. */
  method HandleInput(lib: Bme280Lib, k: nat, reqDelay: uint32, stdin: seq<char>) returns (reply: Reply)
    requires reqDelay == lib.measDelay
    ensures reply == Respond(stdin, TOKEN, MeasurementCycles(lib), k)
  {
    var line := Fgets(stdin, MAX_READ_BUFFER_LEN);
    if line.None? {
      reply := Reply([Gets(line), Exit(EOF_STATUS)], stdin, false);
      return;
    }
    if CString(line.value) == TOKEN {
      var m := OutputMeasurement(lib, k, ToUint16(reqDelay));
      reply := Reply([Gets(line)] + m, stdin[|line.value|..], !Terminated(m));
    } else {
      reply := Reply([Gets(line)] + Fatal(InvalidCommand(line.value)), stdin, false);
    }
  }

  /** One turn of the command loop: the poll, then the input branch when
      the poll reports input ready. */
  method Turn(lib: Bme280Lib, reqDelay: uint32, pollStatus: int, ghost polls: seq<int>, ghost i: nat,
               stdin: seq<char>, k: nat)
    returns (events: seq<Event>, rest: seq<char>, next: nat, goOn: bool)
    requires reqDelay == lib.measDelay && i < |polls| && polls[i] == pollStatus
    ensures next == if pollStatus > 0 then k + 1 else k
    ensures Loop(polls[i..], stdin, TOKEN, MeasurementCycles(lib), k)
            == events + if goOn then Loop(polls[i + 1..], rest, TOKEN, MeasurementCycles(lib), next) else []
  {
    LoopStep(polls, i, stdin, TOKEN, MeasurementCycles(lib), k);
    events := [Poll(POLL_TIMEOUT_MS, pollStatus)];
    if pollStatus <= 0 {
      rest, next, goOn := stdin, k, true;
      return;
    }
    var reply := HandleInput(lib, k, reqDelay, stdin);
    events := events + reply.events;
    rest, next, goOn := reply.rest, k + 1, reply.goOn;
  }

  /** The command loop of `main`, run on the trace so far, up to the end of
      the poll window or of the process. */
  method Serve(trace0: seq<Event>, lib: Bme280Lib, reqDelay: uint32, polls: seq<int>, input: seq<char>)
    returns (trace: seq<Event>)
    requires reqDelay == lib.measDelay
    ensures trace == trace0 + Loop(polls, input, TOKEN, MeasurementCycles(lib), 0)
  {
    trace := trace0;
    var stdin := input;
    var k := 0;
    var i := 0;
    ghost var whole := trace0 + Loop(polls, input, TOKEN, MeasurementCycles(lib), 0);
    while i < |polls|
      invariant 0 <= i <= |polls|
      invariant whole == trace + Loop(polls[i..], stdin, TOKEN, MeasurementCycles(lib), k)
    {
      var events, rest, next, goOn := Turn(lib, reqDelay, polls[i], polls, i, stdin, k);
      ghost var later := if goOn then Loop(polls[i + 1..], rest, TOKEN, MeasurementCycles(lib), next) else [];
      ConcatAssoc(trace, events, later);
      trace := trace + events;
      if !goOn {
        assert whole == trace + [];
        return;
      }
      k, stdin, i := next, rest, i + 1;
    }
    assert polls[i..] == [];
  }

  /** `main` once the arguments are accepted. */
  method Start(bus: BusSettings, replies: InitReplies, lib: Bme280Lib, polls: seq<int>, input: seq<char>)
    returns (trace: seq<Event>)
    ensures trace == Session(InitOutcome(0, bus.deviceNr, bus.addr, replies).events, lib, polls, input)
  {
    var driver := new I2cDriver();
    var rc, events := driver.Init(bus.deviceNr, bus.addr, replies);
    trace := events;
    if Terminated(events) {
      return;
    }
    var call := LibraryCall(SensorInit, lib.init.bus);
    trace := trace + call;
    if Terminated(call) {
      assert trace == events + Startup(lib);
      return;
    }
    var rslt := lib.init.rslt;
    if rslt != BME280_OK {
      trace := trace + Fatal(SensorFailed(InitCall, rslt as int));
      assert trace == events + Startup(lib);
      return;
    }
    call := LibraryCall(SensorSettings, lib.settings.bus);
    trace := trace + call;
    if Terminated(call) {
      assert trace == events + Startup(lib);
      return;
    }
    rslt := lib.settings.rslt;
    if rslt != BME280_OK {
      trace := trace + Fatal(SensorFailed(SettingsCall, rslt as int));
      assert trace == events + Startup(lib);
      return;
    }
    var reqDelay := lib.measDelay;
    call := LibraryCall(Trigger, lib.startMode.bus);
    trace := trace + call;
    if Terminated(call) {
      assert trace == events + Startup(lib);
      return;
    }
    rslt := lib.startMode.rslt;
    if rslt != BME280_OK {
      trace := trace + Fatal(SensorFailed(ModeCall, rslt as int));
      assert trace == events + Startup(lib);
      return;
    }
    trace := trace + [DelayMs(reqDelay)];
    assert trace == events + Startup(lib);
    trace := Serve(trace, lib, reqDelay, polls, input);
  }

  /** `main`, up to the end of the poll window. */
  method Run(argv: seq<string>, replies: InitReplies, lib: Bme280Lib, polls: seq<int>, input: seq<char>)
    returns (trace: seq<Event>)
    ensures trace == MainTrace(argv, replies, lib, polls, input)
  {
    var args := ParseArgs(argv, I2C_ADDR_PRIM, I2C_ADDR_SEC);
    if args.Failure? {
      trace := Fatal(InvalidAddress(args.error));
      return;
    }
    trace := Start(args.value, replies, lib, polls, input);
  }

  lemma SessionWellOrdered(setup: seq<Event>, lib: Bme280Lib, polls: seq<int>, input: seq<char>)
    requires QuietTrace(setup)
    ensures WellOrdered(Session(setup, lib, polls, input), TOKEN, Wait(lib.measDelay))
  {
    var wait := Wait(lib.measDelay);
    QuietWellOrdered(setup, TOKEN, wait);
    if !Terminated(setup) {
      var startup := Startup(lib);
      WellOrderedConcat(setup, startup, TOKEN, wait);
      if !Terminated(startup) {
        LoopWellOrdered(polls, input, TOKEN, MeasurementCycles(lib), 0, wait);
        WellOrderedConcat(setup + startup, Loop(polls, input, TOKEN, MeasurementCycles(lib), 0), TOKEN, wait);
      }
    }
  }

  /** In every run, input is read only after a ready poll, each trigger
      follows the settings or an accepted command, each fetch follows a
      trigger and the wait of the delay computed at start-up, and each
      printed line follows a fetch. */
  lemma MainWellOrdered(argv: seq<string>, replies: InitReplies, lib: Bme280Lib, polls: seq<int>, input: seq<char>)
    ensures WellOrdered(MainTrace(argv, replies, lib, polls, input), TOKEN, Wait(lib.measDelay))
  {
    match ParseArgs(argv, I2C_ADDR_PRIM, I2C_ADDR_SEC)
    case Failure(addr) =>
      QuietWellOrdered(Fatal(InvalidAddress(addr)), TOKEN, Wait(lib.measDelay));
    case Success(bus) =>
      InitOutcomeQuiet(0, bus.deviceNr, bus.addr, replies);
      SessionWellOrdered(InitOutcome(0, bus.deviceNr, bus.addr, replies).events, lib, polls, input);
  }

  lemma SessionDispatched(setup: seq<Event>, lib: Bme280Lib, polls: seq<int>, input: seq<char>)
    requires QuietTrace(setup)
    ensures Dispatched(Session(setup, lib, polls, input), TOKEN)
  {
    var startup := Startup(lib);
    var prefix := if Terminated(setup) then setup else setup + startup;
    var rest := if Terminated(setup) || Terminated(startup) then []
                else Loop(polls, input, TOKEN, MeasurementCycles(lib), 0);
    assert Session(setup, lib, polls, input) == prefix + rest;
    QuietAt(setup);
    assert ReadsNothing(prefix) by {
      forall j | 0 <= j < |prefix|
        ensures !prefix[j].Gets?
      {
        if j < |setup| { assert Quiet(setup[j]); } else { assert prefix[j] == startup[j - |setup|]; }
      }
    }
    if rest != [] {
      LoopDispatched(polls, input, TOKEN, MeasurementCycles(lib), 0, Wait(lib.measDelay));
    }
    DispatchedAfter(prefix, rest, TOKEN);
  }

  /** Every chunk read is answered: end of input returns 1, the whole line
      "measure\n" starts a measurement, anything else ends the process with
      a diagnostic. */
  lemma MainDispatched(argv: seq<string>, replies: InitReplies, lib: Bme280Lib, polls: seq<int>, input: seq<char>)
    ensures Dispatched(MainTrace(argv, replies, lib, polls, input), TOKEN)
  {
    match ParseArgs(argv, I2C_ADDR_PRIM, I2C_ADDR_SEC)
    case Failure(addr) =>
    case Success(bus) =>
      var setup := InitOutcome(0, bus.deviceNr, bus.addr, replies).events;
      assert MainTrace(argv, replies, lib, polls, input) == Session(setup, lib, polls, input);
      InitOutcomeQuiet(0, bus.deviceNr, bus.addr, replies);
      SessionDispatched(setup, lib, polls, input);
  }

  lemma SessionExitOnlyAtEnd(setup: seq<Event>, lib: Bme280Lib, polls: seq<int>, input: seq<char>)
    requires ExitOnlyAtEnd(setup)
    ensures ExitOnlyAtEnd(Session(setup, lib, polls, input))
  {
    if !Terminated(setup) {
      var startup := Startup(lib);
      ExitOnlyAtEndConcat(setup, startup);
      if !Terminated(startup) {
        LoopExitOnlyAtEnd(polls, input, TOKEN, MeasurementCycles(lib), 0, Wait(lib.measDelay));
        var prefix := setup + startup;
        assert prefix[|prefix| - 1] == startup[|startup| - 1];
        ExitOnlyAtEndConcat(prefix, Loop(polls, input, TOKEN, MeasurementCycles(lib), 0));
      }
    }
  }

  /** Nothing happens after the process ends. */
  lemma MainExitOnlyAtEnd(argv: seq<string>, replies: InitReplies, lib: Bme280Lib, polls: seq<int>, input: seq<char>)
    ensures ExitOnlyAtEnd(MainTrace(argv, replies, lib, polls, input))
  {
    match ParseArgs(argv, I2C_ADDR_PRIM, I2C_ADDR_SEC)
    case Failure(addr) =>
    case Success(bus) =>
      InitOutcomeQuiet(0, bus.deviceNr, bus.addr, replies);
      SessionExitOnlyAtEnd(InitOutcome(0, bus.deviceNr, bus.addr, replies).events, lib, polls, input);
  }

  lemma SessionStartupFailure(setup: seq<Event>, lib: Bme280Lib, polls: seq<int>, input: seq<char>)
    requires QuietTrace(setup) && (!Terminated(setup) ==> Terminated(Startup(lib)))
    ensures var t := Session(setup, lib, polls, input);
            Terminated(t) && forall j :: 0 <= j < |t| ==> !t[j].Poll?
  {
    var t := Session(setup, lib, polls, input);
    var startup := Startup(lib);
    var prefix := if Terminated(setup) then setup else setup + startup;
    assert t == prefix;
    assert t[|t| - 1].Exit?;
    QuietAt(setup);
    forall j | 0 <= j < |t|
      ensures !t[j].Poll?
    {
      if j < |setup| {
        assert t[j] == setup[j] && Quiet(setup[j]);
      } else {
        assert t[j] == startup[j - |setup|];
      }
    }
  }

  /** A start-up call that does not succeed ends the process before the
      first poll. */
  lemma StartupFailureStops(argv: seq<string>, replies: InitReplies, lib: Bme280Lib, polls: seq<int>, input: seq<char>)
    requires !Succeeded(lib.init) || !Succeeded(lib.settings) || !Succeeded(lib.startMode)
    ensures var t := MainTrace(argv, replies, lib, polls, input);
            Terminated(t) && forall j :: 0 <= j < |t| ==> !t[j].Poll?
  {
    match ParseArgs(argv, I2C_ADDR_PRIM, I2C_ADDR_SEC)
    case Failure(addr) =>
    case Success(bus) =>
      InitOutcomeQuiet(0, bus.deviceNr, bus.addr, replies);
      SessionStartupFailure(InitOutcome(0, bus.deviceNr, bus.addr, replies).events, lib, polls, input);
  }

  /** With a library that never fails and every poll ready, `n` command
      lines give one reading each, as long as the polls last. */
  lemma CommandsAnswered(polls: seq<int>, n: nat, lib: Bme280Lib, k: nat)
    requires Healthy(lib)
    requires AllReady(polls)
    ensures OutputCount(Loop(polls, Repeat(TOKEN, n), TOKEN, MeasurementCycles(lib), k))
            == if n < |polls| then n else |polls|
  {
    forall i: nat
      ensures OutputCount(MeasurementCycles(lib)(i)) == 1 && !Terminated(MeasurementCycles(lib)(i))
    {
      assert Succeeded(lib.mode(i)) && Succeeded(lib.data(i));
      MeasurementSteps(lib.measDelay, lib.mode(i), lib.data(i));
    }
    assert WholeLine(TOKEN);
    LoopAnswers(polls, TOKEN, MeasurementCycles(lib), k, n);
  }

  /** The start-up wait is the full delay, the wait of each command only
      its low 16 bits: a delay of 65541 ms is waited 65541 ms at start-up
      and 5 ms per command. */
  lemma CommandWaitTruncated(lib: Bme280Lib)
    requires lib.measDelay == 65541
    ensures Wait(lib.measDelay) == DelayMs(5)
    ensures !Terminated(Startup(lib)) ==> Startup(lib)[3] == DelayMs(65541)
    ensures DelayMs(65541) != DelayMs(5)
  {
  }
}
