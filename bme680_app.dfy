/** The BME680 front end (`src/main.c`): argument handling, bus set-up,
    start-up of the sensor through the vendor library, and the command loop
    whose measurements print temperature, pressure, humidity and, when the
    sample says it is valid, gas resistance. The vendor library is an oracle:
    its status codes, its profile duration and the status byte of each
    sample are parameters. */
module Bme680App {
  import opened CTypes
  import opened LibC
  import opened Events
  import opened LinuxI2cDriver
  import opened CommandLine
  import opened CommandLoop

  const I2C_ADDR_PRIMARY: uint8 := 0x76
  const I2C_ADDR_SECONDARY: uint8 := 0x77

  /** The bit of a sample's status byte that marks its gas reading valid. */
  const GASM_VALID_MSK: bv8 := 0x20

  /** The command, compared with `strcmp`: it has no trailing newline. */
  const TOKEN := "measure"

  /** What the vendor library does: for each call, the bus transfers it
      makes through the shim and the status it returns (returned to the
      caller and then ignored); the profile duration, which
      `bme680_get_profile_dur` computes from the settings without a
      transfer; and for the `k`-th command, its trigger, its fetch and the
      status byte of the sample fetched. */
  datatype Bme680Lib = Bme680Lib(
    init: CallAnswer,
    settings: CallAnswer,
    startMode: CallAnswer,
    profileDur: uint16,
    mode: nat -> CallAnswer,
    data: nat -> CallAnswer,
    sampleStatus: nat -> uint8)

  /** The transfers of every command's trigger and fetch complete. */
  ghost predicate Healthy(lib: Bme680Lib)
  {
    forall k: nat :: lib.mode(k).bus.Completed? && lib.data(k).bus.Completed?
  }

  /** The fields `output_measurement` formats: T, P and H always, G exactly
      when bit 5 of the status byte is set. */
  function OutputFields(status: uint8): (fields: seq<Field>)
    ensures |fields| >= 3 && fields[..3] == [Temperature, Pressure, Humidity]
    ensures (GasResistance in fields) <==> (status / 0x20) % 2 == 1
    ensures |fields| == (if (status / 0x20) % 2 == 1 then 4 else 3)
  {
    if (status as bv8) & GASM_VALID_MSK != 0 then [Temperature, Pressure, Humidity, GasResistance]
    else [Temperature, Pressure, Humidity]
  }

  /** The sleep of one measurement, and of the start-up. */
  function Wait(measPeriod: uint16): (e: Event)
    ensures e == DelayMs(measPeriod as uint32)
    ensures e.Sleep? && e.ts.tvSec * 1000 + e.ts.tvNsec / 1_000_000 == measPeriod as int
  {
    DelayMs(measPeriod as uint32)
  }

  /** One command: trigger, wait the profile duration, fetch, print one
      line. The statuses are not looked at, but a short transfer inside the
      trigger or the fetch ends the process there. */
  function Measurement(measPeriod: uint16, mode: Transfers, data: Transfers, status: uint8): (m: seq<Event>)
    ensures |m| > 0 && m[0] == Trigger
    ensures Terminated(m) <==> !mode.Completed? || !data.Completed?
    ensures !Terminated(m) ==> m[|m| - 1] == Output(OutputFields(status))
  {
    if !mode.Completed? then [Trigger] + Fatal(Interruption(mode))
    else if !data.Completed? then [Trigger, Wait(measPeriod), Fetch] + Fatal(Interruption(data))
    else [Trigger, Wait(measPeriod), Fetch, Output(OutputFields(status))]
  }

  /** A cut trigger is followed by no sleep and no fetch; after a complete
      trigger come the sleep and the fetch; a cut fetch is followed by no
      line; exactly one line is printed when both calls complete. */
  lemma MeasurementSteps(measPeriod: uint16, mode: Transfers, data: Transfers, status: uint8)
    ensures var m := Measurement(measPeriod, mode, data, status);
            && (!mode.Completed? ==> m == [Trigger] + Fatal(Interruption(mode)))
            && (mode.Completed? ==> |m| >= 3 && m[..3] == [Trigger, Wait(measPeriod), Fetch])
            && (mode.Completed? && !data.Completed? ==> m[3..] == Fatal(Interruption(data)))
            && OutputCount(m) == (if mode.Completed? && data.Completed? then 1 else 0)
  {
    var m := Measurement(measPeriod, mode, data, status);
    if mode.Completed? && data.Completed? {
      var steps := [Trigger, Wait(measPeriod), Fetch];
      var line := [Output(OutputFields(status))];
      assert m == steps + line;
      OutputCountConcat(steps, line);
      NoOutputs(steps);
      assert line[1..] == [];
    } else {
      NoOutputs(m);
    }
  }

  /** A measurement starts with its trigger, fetches only after the trigger
      and the wait, prints only after the fetch, and ends the process only
      with its last event. */
  lemma MeasurementShape(measPeriod: uint16, mode: Transfers, data: Transfers, status: uint8)
    ensures CycleShape(Measurement(measPeriod, mode, data, status), TOKEN, Wait(measPeriod))
  {
    var m := Measurement(measPeriod, mode, data, status);
    assert forall j :: 1 <= j < |m| ==> Justified(m, j, TOKEN, Wait(measPeriod));
  }

  /** Every measurement with the same wait has that shape. */
  lemma MeasurementsShaped(measPeriod: uint16)
    ensures forall mode: Transfers, data: Transfers, status: uint8 ::
              CycleShape(Measurement(measPeriod, mode, data, status), TOKEN, Wait(measPeriod))
  {
    forall mode: Transfers, data: Transfers, status: uint8
      ensures CycleShape(Measurement(measPeriod, mode, data, status), TOKEN, Wait(measPeriod))
    {
      MeasurementShape(measPeriod, mode, data, status);
    }
  }

  /** The measurement run for the `k`-th accepted command: the measurement
      with the library's `k`-th answers. Every such run has the shape the
      command loop's ordering properties rely on. */
  function MeasurementCycles(lib: Bme680Lib): (cycle: nat -> seq<Event>)
    ensures forall k: nat :: cycle(k) == Measurement(lib.profileDur, lib.mode(k).bus, lib.data(k).bus, lib.sampleStatus(k))
    ensures WellShaped(cycle, TOKEN, Wait(lib.profileDur))
  {
    MeasurementsShaped(lib.profileDur);
    (k: nat) => Measurement(lib.profileDur, lib.mode(k).bus, lib.data(k).bus, lib.sampleStatus(k))
  }

  /** Vendor-library initialisation, settings, the first trigger and its
      wait. The statuses are not looked at; a short transfer inside one of
      the calls ends the process there, and no later call is made. */
  function Startup(lib: Bme680Lib): (s: seq<Event>)
    ensures |s| > 0 && s[0] == SensorInit
    ensures Terminated(s) <==>
              !lib.init.bus.Completed? || !lib.settings.bus.Completed? || !lib.startMode.bus.Completed?
    ensures !lib.init.bus.Completed? ==> s == [SensorInit] + Fatal(Interruption(lib.init.bus))
    ensures lib.init.bus.Completed? && !lib.settings.bus.Completed? ==>
              s == [SensorInit, SensorSettings] + Fatal(Interruption(lib.settings.bus))
    ensures lib.init.bus.Completed? && lib.settings.bus.Completed? && !lib.startMode.bus.Completed? ==>
              s == [SensorInit, SensorSettings, Trigger] + Fatal(Interruption(lib.startMode.bus))
    ensures !Terminated(s) ==> s == [SensorInit, SensorSettings, Trigger, Wait(lib.profileDur)]
    ensures ReadsNothing(s) && ExitOnlyAtEnd(s) && OutputCount(s) == 0
    ensures forall j :: 0 <= j < |s| ==> !s[j].Poll?
    ensures forall wait: Event :: WellOrdered(s, TOKEN, wait)
  {
    var s :=
      if !lib.init.bus.Completed? then [SensorInit] + Fatal(Interruption(lib.init.bus))
      else if !lib.settings.bus.Completed? then [SensorInit, SensorSettings] + Fatal(Interruption(lib.settings.bus))
      else if !lib.startMode.bus.Completed? then
        [SensorInit, SensorSettings, Trigger] + Fatal(Interruption(lib.startMode.bus))
      else [SensorInit, SensorSettings, Trigger, Wait(lib.profileDur)];
    assert forall wait: Event, j :: 0 <= j < |s| ==> Justified(s, j, TOKEN, wait);
    NoOutputs(s);
    s
  }

  /** What follows the bus set-up, whose events are `setup`: when it ended
      the process nothing follows; otherwise the start-up of the sensor and,
      unless the start-up ended the process, the command loop. */
  function Session(setup: seq<Event>, lib: Bme680Lib, polls: seq<int>, input: seq<char>): (t: seq<Event>)
    ensures setup <= t
    ensures Terminated(setup) ==> t == setup
    ensures !Terminated(setup) ==> setup + Startup(lib) <= t
    ensures !Terminated(setup) && Terminated(Startup(lib)) ==> t == setup + Startup(lib)
  {
    if Terminated(setup) then setup
    else if Terminated(Startup(lib)) then setup + Startup(lib)
    else setup + Startup(lib) + Loop(polls, input, TOKEN, MeasurementCycles(lib), 0)
  }

  /** The whole run of `main` with arguments `argv` (program name included),
      the kernel's answers to the bus set-up, the library's answers, the
      poll results and the text on standard input. */
  function MainTrace(argv: seq<string>, replies: InitReplies, lib: Bme680Lib, polls: seq<int>, input: seq<char>)
    : (t: seq<Event>)
    ensures ParseArgs(argv, I2C_ADDR_PRIMARY, I2C_ADDR_SECONDARY).Failure? ==>
              t == Fatal(InvalidAddress(ParseArgs(argv, I2C_ADDR_PRIMARY, I2C_ADDR_SECONDARY).error))
  {
    match ParseArgs(argv, I2C_ADDR_PRIMARY, I2C_ADDR_SECONDARY)
    case Failure(addr) => Fatal(InvalidAddress(addr))
    case Success(bus) => Session(InitOutcome(0, bus.deviceNr, bus.addr, replies).events, lib, polls, input)
  }

  /** `output_measurement`: the statuses of the trigger and of the fetch are
      read and ignored; the process ends inside a call whose transfer came
      up short. */
  method OutputMeasurement(lib: Bme680Lib, k: nat, measPeriod: uint16) returns (events: seq<Event>)
    requires measPeriod == lib.profileDur
    ensures events == MeasurementCycles(lib)(k)
  {
    var mode := lib.mode(k);
    events := LibraryCall(Trigger, mode.bus);
    if Terminated(events) {
      return;
    }
    var rslt := mode.rslt;
    events := events + [DelayMs(measPeriod as uint32)];
    var data := lib.data(k);
    var fetch := LibraryCall(Fetch, data.bus);
    events := events + fetch;
    if Terminated(fetch) {
      return;
    }
    rslt := data.rslt;
    var status := lib.sampleStatus(k);
    var fields := OutputFields(status);
    events := events + [Output(fields)];
  }

  /** The branch of the command loop taken when input is ready: one
      `fgets`, then the end of input, the command or an invalid chunk. */
  method HandleInput(lib: Bme680Lib, k: nat, measPeriod: uint16, stdin: seq<char>) returns (reply: Reply)
    requires measPeriod == lib.profileDur
    ensures reply == Respond(stdin, TOKEN, MeasurementCycles(lib), k)
  {
    var line := Fgets(stdin, MAX_READ_BUFFER_LEN);
    if line.None? {
      reply := Reply([Gets(line), Exit(EOF_STATUS)], stdin, false);
      return;
    }
    if CString(line.value) == TOKEN {
      var m := OutputMeasurement(lib, k, measPeriod);
      reply := Reply([Gets(line)] + m, stdin[|line.value|..], !Terminated(m));
    } else {
      reply := Reply([Gets(line)] + Fatal(InvalidCommand(line.value)), stdin, false);
    }
  }

  /** One turn of the command loop: the poll, then the input branch when
      the poll reports input ready. */
  method Turn(lib: Bme680Lib, measPeriod: uint16, pollStatus: int, ghost polls: seq<int>, ghost i: nat,
               stdin: seq<char>, k: nat)
    returns (events: seq<Event>, rest: seq<char>, next: nat, goOn: bool)
    requires measPeriod == lib.profileDur && i < |polls| && polls[i] == pollStatus
    ensures next == if pollStatus > 0 then k + 1 else k
    ensures Loop(polls[i..], stdin, TOKEN, MeasurementCycles(lib), k)
            == events + if goOn then Loop(polls[i + 1..], rest, TOKEN, MeasurementCycles(lib), next) else []
  {
    LoopStep(polls, i, stdin, TOKEN, MeasurementCycles(lib), k);
    events := [Poll(POLL_TIMEOUT_MS, pollStatus)];
    if pollStatus <= 0 {
      rest, next, goOn := stdin, k, true;
      return;
    }
    var reply := HandleInput(lib, k, measPeriod, stdin);
    events := events + reply.events;
    rest, next, goOn := reply.rest, k + 1, reply.goOn;
  }

  /** The command loop of `main`, run on the trace so far, up to the end of
      the poll window or of the process. */
  method Serve(trace0: seq<Event>, lib: Bme680Lib, measPeriod: uint16, polls: seq<int>, input: seq<char>)
    returns (trace: seq<Event>)
    requires measPeriod == lib.profileDur
    ensures trace == trace0 + Loop(polls, input, TOKEN, MeasurementCycles(lib), 0)
  {
    trace := trace0;
    var stdin := input;
    var k := 0;
    var i := 0;
    ghost var whole := trace0 + Loop(polls, input, TOKEN, MeasurementCycles(lib), 0);
    while i < |polls|
      invariant 0 <= i <= |polls|
      invariant whole == trace + Loop(polls[i..], stdin, TOKEN, MeasurementCycles(lib), k)
    {
      var events, rest, next, goOn := Turn(lib, measPeriod, polls[i], polls, i, stdin, k);
      ghost var later := if goOn then Loop(polls[i + 1..], rest, TOKEN, MeasurementCycles(lib), next) else [];
      ConcatAssoc(trace, events, later);
      trace := trace + events;
      if !goOn {
        assert whole == trace + [];
        return;
      }
      k, stdin, i := next, rest, i + 1;
    }
    assert polls[i..] == [];
  }

  /** `main` once the arguments are accepted: the bus set-up on a fresh
      handle, the sensor start-up and the command loop. */
  method Start(bus: BusSettings, replies: InitReplies, lib: Bme680Lib, polls: seq<int>, input: seq<char>)
    returns (trace: seq<Event>)
    ensures trace == Session(InitOutcome(0, bus.deviceNr, bus.addr, replies).events, lib, polls, input)
  {
    var driver := new I2cDriver();
    var rc, events := driver.Init(bus.deviceNr, bus.addr, replies);
    trace := events;
    if Terminated(events) {
      return;
    }
    var call := LibraryCall(SensorInit, lib.init.bus);
    trace := trace + call;
    if Terminated(call) {
      return;
    }
    var rslt := lib.init.rslt;
    call := LibraryCall(SensorSettings, lib.settings.bus);
    trace := trace + call;
    if Terminated(call) {
      return;
    }
    rslt := lib.settings.rslt;
    call := LibraryCall(Trigger, lib.startMode.bus);
    trace := trace + call;
    if Terminated(call) {
      return;
    }
    rslt := lib.startMode.rslt;
    var measPeriod := lib.profileDur;
    trace := trace + [DelayMs(measPeriod as uint32)];
    assert trace == events + Startup(lib);
    trace := Serve(trace, lib, measPeriod, polls, input);
  }

  /** `main`, up to the end of the poll window. */
  method Run(argv: seq<string>, replies: InitReplies, lib: Bme680Lib, polls: seq<int>, input: seq<char>)
    returns (trace: seq<Event>)
    ensures trace == MainTrace(argv, replies, lib, polls, input)
  {
    var args := ParseArgs(argv, I2C_ADDR_PRIMARY, I2C_ADDR_SECONDARY);
    if args.Failure? {
      trace := Fatal(InvalidAddress(args.error));
      return;
    }
    trace := Start(args.value, replies, lib, polls, input);
  }

  lemma SessionWellOrdered(setup: seq<Event>, lib: Bme680Lib, polls: seq<int>, input: seq<char>)
    requires QuietTrace(setup)
    ensures WellOrdered(Session(setup, lib, polls, input), TOKEN, Wait(lib.profileDur))
  {
    var wait := Wait(lib.profileDur);
    QuietWellOrdered(setup, TOKEN, wait);
    if !Terminated(setup) {
      var startup := Startup(lib);
      WellOrderedConcat(setup, startup, TOKEN, wait);
      if !Terminated(startup) {
        LoopWellOrdered(polls, input, TOKEN, MeasurementCycles(lib), 0, wait);
        WellOrderedConcat(setup + startup, Loop(polls, input, TOKEN, MeasurementCycles(lib), 0), TOKEN, wait);
      }
    }
  }

  /** In every run, input is read only after a ready poll, each trigger
      follows the settings or an accepted command, each fetch follows a
      trigger and a wait of the one profile duration obtained at start-up,
      and each printed line follows a fetch. */
  lemma MainWellOrdered(argv: seq<string>, replies: InitReplies, lib: Bme680Lib, polls: seq<int>, input: seq<char>)
    ensures WellOrdered(MainTrace(argv, replies, lib, polls, input), TOKEN, Wait(lib.profileDur))
  {
    match ParseArgs(argv, I2C_ADDR_PRIMARY, I2C_ADDR_SECONDARY)
    case Failure(addr) =>
      QuietWellOrdered(Fatal(InvalidAddress(addr)), TOKEN, Wait(lib.profileDur));
    case Success(bus) =>
      InitOutcomeQuiet(0, bus.deviceNr, bus.addr, replies);
      SessionWellOrdered(InitOutcome(0, bus.deviceNr, bus.addr, replies).events, lib, polls, input);
  }

  lemma SessionDispatched(setup: seq<Event>, lib: Bme680Lib, polls: seq<int>, input: seq<char>)
    requires QuietTrace(setup)
    ensures Dispatched(Session(setup, lib, polls, input), TOKEN)
  {
    var startup := Startup(lib);
    var prefix := if Terminated(setup) then setup else setup + startup;
    var rest := if Terminated(setup) || Terminated(startup) then []
                else Loop(polls, input, TOKEN, MeasurementCycles(lib), 0);
    assert Session(setup, lib, polls, input) == prefix + rest;
    QuietAt(setup);
    assert ReadsNothing(prefix) by {
      forall j | 0 <= j < |prefix|
        ensures !prefix[j].Gets?
      {
        if j < |setup| { assert Quiet(setup[j]); } else { assert prefix[j] == startup[j - |setup|]; }
      }
    }
    if rest != [] {
      LoopDispatched(polls, input, TOKEN, MeasurementCycles(lib), 0, Wait(lib.profileDur));
    }
    DispatchedAfter(prefix, rest, TOKEN);
  }

  /** Every chunk read is answered: end of input returns 1, the token starts
      a measurement, anything else ends the process with a diagnostic. */
  lemma MainDispatched(argv: seq<string>, replies: InitReplies, lib: Bme680Lib, polls: seq<int>, input: seq<char>)
    ensures Dispatched(MainTrace(argv, replies, lib, polls, input), TOKEN)
  {
    match ParseArgs(argv, I2C_ADDR_PRIMARY, I2C_ADDR_SECONDARY)
    case Failure(addr) =>
    case Success(bus) =>
      var setup := InitOutcome(0, bus.deviceNr, bus.addr, replies).events;
      assert MainTrace(argv, replies, lib, polls, input) == Session(setup, lib, polls, input);
      InitOutcomeQuiet(0, bus.deviceNr, bus.addr, replies);
      SessionDispatched(setup, lib, polls, input);
  }

  lemma SessionExitOnlyAtEnd(setup: seq<Event>, lib: Bme680Lib, polls: seq<int>, input: seq<char>)
    requires ExitOnlyAtEnd(setup)
    ensures ExitOnlyAtEnd(Session(setup, lib, polls, input))
  {
    if !Terminated(setup) {
      var startup := Startup(lib);
      ExitOnlyAtEndConcat(setup, startup);
      if !Terminated(startup) {
        LoopExitOnlyAtEnd(polls, input, TOKEN, MeasurementCycles(lib), 0, Wait(lib.profileDur));
        var prefix := setup + startup;
        assert prefix[|prefix| - 1] == startup[|startup| - 1];
        ExitOnlyAtEndConcat(prefix, Loop(polls, input, TOKEN, MeasurementCycles(lib), 0));
      }
    }
  }

  /** Nothing happens after the process ends. */
  lemma MainExitOnlyAtEnd(argv: seq<string>, replies: InitReplies, lib: Bme680Lib, polls: seq<int>, input: seq<char>)
    ensures ExitOnlyAtEnd(MainTrace(argv, replies, lib, polls, input))
  {
    match ParseArgs(argv, I2C_ADDR_PRIMARY, I2C_ADDR_SECONDARY)
    case Failure(addr) =>
    case Success(bus) =>
      InitOutcomeQuiet(0, bus.deviceNr, bus.addr, replies);
      SessionExitOnlyAtEnd(InitOutcome(0, bus.deviceNr, bus.addr, replies).events, lib, polls, input);
  }

  lemma SessionStartupCut(setup: seq<Event>, lib: Bme680Lib, polls: seq<int>, input: seq<char>)
    requires QuietTrace(setup) && (!Terminated(setup) ==> Terminated(Startup(lib)))
    ensures var t := Session(setup, lib, polls, input);
            Terminated(t) && forall j :: 0 <= j < |t| ==> !t[j].Poll?
  {
    var t := Session(setup, lib, polls, input);
    var startup := Startup(lib);
    var prefix := if Terminated(setup) then setup else setup + startup;
    assert t == prefix;
    assert t[|t| - 1].Exit?;
    QuietAt(setup);
    forall j | 0 <= j < |t|
      ensures !t[j].Poll?
    {
      if j < |setup| {
        assert t[j] == setup[j] && Quiet(setup[j]);
      } else {
        assert t[j] == startup[j - |setup|];
      }
    }
  }

  /** A short transfer inside a start-up call ends the process before the
      first poll. */
  lemma StartupCutStops(argv: seq<string>, replies: InitReplies, lib: Bme680Lib, polls: seq<int>, input: seq<char>)
    requires !lib.init.bus.Completed? || !lib.settings.bus.Completed? || !lib.startMode.bus.Completed?
    ensures var t := MainTrace(argv, replies, lib, polls, input);
            Terminated(t) && forall j :: 0 <= j < |t| ==> !t[j].Poll?
  {
    match ParseArgs(argv, I2C_ADDR_PRIMARY, I2C_ADDR_SECONDARY)
    case Failure(addr) =>
    case Success(bus) =>
      InitOutcomeQuiet(0, bus.deviceNr, bus.addr, replies);
      SessionStartupCut(InitOutcome(0, bus.deviceNr, bus.addr, replies).events, lib, polls, input);
  }

  /** The library's status codes never change what the process does: runs
      differ only through the transfers of the calls, the profile duration
      and the status bytes of the samples. */
  lemma StatusesIgnored(
    argv: seq<string>, replies: InitReplies, lib1: Bme680Lib, lib2: Bme680Lib, polls: seq<int>, input: seq<char>)
    requires lib1.profileDur == lib2.profileDur
    requires lib1.init.bus == lib2.init.bus && lib1.settings.bus == lib2.settings.bus
    requires lib1.startMode.bus == lib2.startMode.bus
    requires forall k: nat :: lib1.mode(k).bus == lib2.mode(k).bus && lib1.data(k).bus == lib2.data(k).bus
    requires forall k: nat :: lib1.sampleStatus(k) == lib2.sampleStatus(k)
    ensures MainTrace(argv, replies, lib1, polls, input) == MainTrace(argv, replies, lib2, polls, input)
  {
    assert Startup(lib1) == Startup(lib2);
    forall k: nat
      ensures MeasurementCycles(lib1)(k) == MeasurementCycles(lib2)(k)
    {
      assert lib1.mode(k).bus == lib2.mode(k).bus && lib1.data(k).bus == lib2.data(k).bus;
      assert lib1.sampleStatus(k) == lib2.sampleStatus(k);
    }
    LoopCongruence(polls, input, TOKEN, MeasurementCycles(lib1), MeasurementCycles(lib2), 0);
  }

  /** A NUL-free chunk that `strcmp` finds equal to the token is the token. */
  lemma ChunkIsToken(chunk: seq<char>)
    requires '\0' !in chunk && CString(chunk) == TOKEN
    ensures chunk == TOKEN
  {
    var s := CString(chunk);
    if |s| < |chunk| {
      assert false;
    }
  }

  /** A NUL-free chunk equal to the token cannot have stopped at a newline
      or at the buffer size, so it is all of the input. */
  lemma TokenIsWholeInput(input: seq<char>)
    requires '\0' !in input
    requires Fgets(input, MAX_READ_BUFFER_LEN).Some?
    requires CString(Fgets(input, MAX_READ_BUFFER_LEN).value) == TOKEN
    ensures Fgets(input, MAX_READ_BUFFER_LEN).value == input
  {
    var chunk := Fgets(input, MAX_READ_BUFFER_LEN).value;
    assert forall j :: 0 <= j < |chunk| ==> chunk[j] == input[j];
    ChunkIsToken(chunk);
    assert chunk[|chunk| - 1] == 'e';
  }

  /** Since the token has no newline and is shorter than the read buffer, a
      chunk equal to it must be the whole rest of the input: over text with
      no NUL character the command loop makes at most one measurement. */
  lemma {:induction false} LoopAtMostOneMeasurement(polls: seq<int>, input: seq<char>, lib: Bme680Lib, k: nat)
    requires '\0' !in input
    ensures OutputCount(Loop(polls, input, TOKEN, MeasurementCycles(lib), k)) <= 1
    decreases |polls|
  {
    if polls != [] {
      if polls[0] <= 0 {
        var head := [Poll(POLL_TIMEOUT_MS, polls[0])];
        LoopAtMostOneMeasurement(polls[1..], input, lib, k);
        OutputCountConcat(head, Loop(polls[1..], input, TOKEN, MeasurementCycles(lib), k));
        NoOutputs(head);
      } else {
        ReadyPollMeasuresOnce(polls, input, lib, k);
      }
    }
  }

  /** After a ready poll, the token is taken only as the whole input, so
      what follows it runs without input. */
  lemma ReadyPollMeasuresOnce(polls: seq<int>, input: seq<char>, lib: Bme680Lib, k: nat)
    requires '\0' !in input && polls != [] && polls[0] > 0
    ensures OutputCount(Loop(polls, input, TOKEN, MeasurementCycles(lib), k)) <= 1
  {
    var cycles := MeasurementCycles(lib);
    var line := Fgets(input, MAX_READ_BUFFER_LEN);
    var t := Loop(polls, input, TOKEN, cycles, k);
    if line.None? {
      RespondCases(input, TOKEN, cycles, k);
      assert t == [Poll(POLL_TIMEOUT_MS, polls[0]), Gets(None), Exit(EOF_STATUS)];
      NoOutputs(t);
    } else if CString(line.value) == TOKEN {
      TokenIsWholeInput(input);
      ChunkIsToken(input);
      WholeInputMeasuresOnce(polls, lib, k);
    } else {
      LoopRejecting(polls, input, line.value, TOKEN, cycles, k);
      NoOutputs(t);
    }
  }

  /** The token as the whole input gives at most one line. */
  lemma WholeInputMeasuresOnce(polls: seq<int>, lib: Bme680Lib, k: nat)
    requires |polls| > 0 && polls[0] > 0
    ensures OutputCount(Loop(polls, TOKEN, TOKEN, MeasurementCycles(lib), k)) <= 1
  {
    var reading := [Poll(POLL_TIMEOUT_MS, polls[0]), Gets(Some(TOKEN))];
    var m := Measurement(lib.profileDur, lib.mode(k).bus, lib.data(k).bus, lib.sampleStatus(k));
    assert OutputCount(m) <= 1 by {
      MeasurementSteps(lib.profileDur, lib.mode(k).bus, lib.data(k).bus, lib.sampleStatus(k));
    }
    assert OutputCount(reading) == 0 by {
      NoOutputs(reading);
    }
    MeasureWholeInput(polls, lib, k);
    if Terminated(m) {
      StoppedReadingCount(reading, m);
    } else {
      var rest := Loop(polls[1..], [], TOKEN, MeasurementCycles(lib), k + 1);
      assert OutputCount(rest) == 0 by {
        LoopWithoutInput(polls[1..], TOKEN, MeasurementCycles(lib), k + 1);
      }
      ContinuedReadingCount(reading, m, rest);
    }
  }

  lemma StoppedReadingCount(reading: seq<Event>, m: seq<Event>)
    requires OutputCount(reading) == 0 && OutputCount(m) <= 1
    ensures OutputCount(reading + m) <= 1
  {
    OutputCountConcat(reading, m);
  }

  lemma ContinuedReadingCount(reading: seq<Event>, m: seq<Event>, rest: seq<Event>)
    requires OutputCount(reading) == 0 && OutputCount(m) <= 1 && OutputCount(rest) == 0
    ensures OutputCount(reading + m + rest) <= 1
  {
    OutputCountConcat(reading, m);
    OutputCountConcat(reading + m, rest);
  }

  lemma SessionAtMostOneMeasurement(setup: seq<Event>, lib: Bme680Lib, polls: seq<int>, input: seq<char>)
    requires QuietTrace(setup) && '\0' !in input
    ensures OutputCount(Session(setup, lib, polls, input)) <= 1
  {
    QuietAt(setup);
    NoOutputs(setup);
    if !Terminated(setup) {
      var prefix := setup + Startup(lib);
      OutputCountConcat(setup, Startup(lib));
      if !Terminated(Startup(lib)) {
        LoopAtMostOneMeasurement(polls, input, lib, 0);
        OutputCountConcat(prefix, Loop(polls, input, TOKEN, MeasurementCycles(lib), 0));
      }
    }
  }

  /** Over input with no NUL character, a run prints at most one reading. */
  lemma MainAtMostOneMeasurement(
    argv: seq<string>, replies: InitReplies, lib: Bme680Lib, polls: seq<int>, input: seq<char>)
    requires '\0' !in input
    ensures OutputCount(MainTrace(argv, replies, lib, polls, input)) <= 1
  {
    match ParseArgs(argv, I2C_ADDR_PRIMARY, I2C_ADDR_SECONDARY)
    case Failure(addr) =>
      NoOutputs(Fatal(InvalidAddress(addr)));
    case Success(bus) =>
      InitOutcomeQuiet(0, bus.deviceNr, bus.addr, replies);
      SessionAtMostOneMeasurement(InitOutcome(0, bus.deviceNr, bus.addr, replies).events, lib, polls, input);
  }

  /** A command sent as the line "measure\n" is not the token: whatever
      follows it, the process ends with a diagnostic instead of measuring. */
  lemma NewlineCommandRejected(polls: seq<int>, rest: seq<char>, lib: Bme680Lib, k: nat)
    requires |polls| > 0 && polls[0] > 0
    ensures Loop(polls, "measure\n" + rest, TOKEN, MeasurementCycles(lib), k)
            == [Poll(POLL_TIMEOUT_MS, polls[0]), Gets(Some("measure\n"))] + Fatal(InvalidCommand("measure\n"))
  {
    FgetsLine("measure\n", rest, MAX_READ_BUFFER_LEN);
    CStringOfText("measure\n");
    LoopRejecting(polls, "measure\n" + rest, "measure\n", TOKEN, MeasurementCycles(lib), k);
  }

  /** The token as the whole input is measured once; unless the measurement
      ends the process, what follows runs on an empty input. */
  lemma MeasureWholeInput(polls: seq<int>, lib: Bme680Lib, k: nat)
    requires |polls| > 0 && polls[0] > 0
    ensures var m := Measurement(lib.profileDur, lib.mode(k).bus, lib.data(k).bus, lib.sampleStatus(k));
            Terminated(m) ==>
              Loop(polls, TOKEN, TOKEN, MeasurementCycles(lib), k) == [Poll(POLL_TIMEOUT_MS, polls[0]), Gets(Some(TOKEN))] + m
    ensures var m := Measurement(lib.profileDur, lib.mode(k).bus, lib.data(k).bus, lib.sampleStatus(k));
            !Terminated(m) ==>
              Loop(polls, TOKEN, TOKEN, MeasurementCycles(lib), k)
              == [Poll(POLL_TIMEOUT_MS, polls[0]), Gets(Some(TOKEN))] + m + Loop(polls[1..], [], TOKEN, MeasurementCycles(lib), k + 1)
  {
    var cycles := MeasurementCycles(lib);
    assert cycles(k) == Measurement(lib.profileDur, lib.mode(k).bus, lib.data(k).bus, lib.sampleStatus(k));
    FgetsText(TOKEN, MAX_READ_BUFFER_LEN);
    CStringOfText(TOKEN);
    if Terminated(cycles(k)) {
      LoopStopping(polls, TOKEN, TOKEN, TOKEN, cycles, k);
    } else {
      assert TOKEN[|TOKEN|..] == [];
      LoopAccepting(polls, TOKEN, TOKEN, TOKEN, cycles, k);
    }
  }

  /** The command as a whole line, as the BME280 front end compares it. */
  const LINE_TOKEN := "measure\n"

  /** With the command compared as a whole line, `n` command lines give one
      reading each, as long as the polls last, all report input ready, and
      the transfers of the commands complete. */
  lemma LineCommandsAnswered(polls: seq<int>, n: nat, lib: Bme680Lib, k: nat)
    requires Healthy(lib) && AllReady(polls)
    ensures OutputCount(Loop(polls, Repeat(LINE_TOKEN, n), LINE_TOKEN, MeasurementCycles(lib), k))
            == if n < |polls| then n else |polls|
  {
    assert Answering(MeasurementCycles(lib)) by {
      forall i: nat
        ensures OutputCount(MeasurementCycles(lib)(i)) == 1 && !Terminated(MeasurementCycles(lib)(i))
      {
        assert lib.mode(i).bus.Completed? && lib.data(i).bus.Completed?;
        MeasurementSteps(lib.profileDur, lib.mode(i).bus, lib.data(i).bus, lib.sampleStatus(i));
      }
    }
    assert WholeLine(LINE_TOKEN);
    LoopAnswers(polls, LINE_TOKEN, MeasurementCycles(lib), k, n);
  }
}
