/** The observable behaviour of the process, as a trace of events: the
    system calls it makes, the vendor-library calls it makes, what it prints
    and how it ends. */
module Events {
  import opened CTypes

  /** `struct timespec` as passed to `nanosleep`. */
  datatype Timespec = Timespec(tvSec: int, tvNsec: int)

  /** The fields of a printed reading. */
  datatype Field = Temperature | Pressure | Humidity | GasResistance

  /** The vendor-library calls whose status a front end may check. */
  datatype SensorCall = InitCall | SettingsCall | ModeCall | DataCall

  /** What a fatal diagnostic (printed by `err` on standard error) reports. */
  datatype Fault =
    | OpenFailed(ret: int)
    | BindFailed(ret: int)
    | ShortWrite(ret: int)
    | ShortRead(ret: int)
    | InvalidAddress(addr: uint8)
    | InvalidCommand(chunk: seq<char>)
    | SensorFailed(call: SensorCall, rslt: int)

  datatype Event =
    | Open(path: string)                    // open(path, O_RDWR)
    | Bind(fd: int, addr: uint8)            // ioctl(fd, I2C_SLAVE_FORCE, addr)
    | BusWrite(fd: int, bytes: seq<uint8>)  // write(fd, bytes, |bytes|)
    | BusRead(fd: int, len: nat)            // read(fd, buf, len)
    | Sleep(ts: Timespec)                   // nanosleep(&ts, NULL)
    | Poll(timeout: int, result: int)       // poll on standard input
    | Gets(line: Option<seq<char>>)         // fgets on standard input; None is NULL
    | SensorInit                            // vendor library: initialise the device
    | SensorSettings                        // vendor library: apply the settings
    | Trigger                               // vendor library: set forced mode
    | Fetch                                 // vendor library: read the sample
    | Output(fields: seq<Field>)            // one line on standard output
    | Diagnostic(fault: Fault)              // a message on standard error
    | Exit(code: int)                       // the process ends with this status

  const EXIT_FAILURE := 1

  /** `err(EXIT_FAILURE, ...)`: a diagnostic, then the process ends. */
  function Fatal(f: Fault): seq<Event>
  {
    [Diagnostic(f), Exit(EXIT_FAILURE)]
  }

  /** How the bus transfers a vendor-library call makes through the shim's
      callbacks `user_i2c_write` and `user_i2c_read` went: all in full, or
      one came up short, when the shim ends the process inside the call.
      `WriteCut(n)` is a write that `write` answered with `n`, `ReadCut(n)`
      a read that `read` answered with `n`. */
  datatype Transfers = Completed | WriteCut(written: int) | ReadCut(count: int)

  /** What one call of the vendor library does: its bus transfers, and the
      status it returns when they complete. */
  datatype CallAnswer = CallAnswer(bus: Transfers, rslt: int8)

  /** The diagnostic of the shim when a transfer comes up short. */
  function Interruption(bus: Transfers): (f: Fault)
    requires !bus.Completed?
    ensures f.ShortWrite? || f.ShortRead?
    ensures f.ShortWrite? <==> bus.WriteCut?
  {
    match bus
    case WriteCut(n) => ShortWrite(n)
    case ReadCut(n) => ShortRead(n)
  }

  /** A vendor-library call in the trace: the call, then, when one of its
      transfers came up short, the shim's diagnostic and the end of the
      process; the call returns to its caller exactly when its transfers
      completed. */
  function LibraryCall(call: Event, bus: Transfers): (t: seq<Event>)
    requires !call.Exit?
    ensures |t| > 0 && t[0] == call
    ensures Terminated(t) <==> !bus.Completed?
    ensures bus.Completed? ==> t == [call]
    ensures !bus.Completed? ==> t[1..] == Fatal(Interruption(bus))
  {
    if bus.Completed? then [call] else [call] + Fatal(Interruption(bus))
  }

  /** The trace ends with the end of the process. */
  predicate Terminated(t: seq<Event>)
  {
    |t| > 0 && t[|t| - 1].Exit?
  }

  /** Nothing happens after the process ends. */
  ghost predicate ExitOnlyAtEnd(t: seq<Event>)
  {
    forall j :: 0 <= j < |t| - 1 ==> !t[j].Exit?
  }

  /** An event that neither polls, reads input, nor takes part in a
      measurement. */
  predicate Quiet(e: Event)
  {
    !(e.Poll? || e.Gets? || e.Trigger? || e.Fetch? || e.Output?)
  }

  ghost predicate QuietTrace(t: seq<Event>)
  {
    forall e :: e in t ==> Quiet(e)
  }

  lemma QuietAt(t: seq<Event>)
    requires QuietTrace(t)
    ensures forall j :: 0 <= j < |t| ==> Quiet(t[j])
  {
    forall j | 0 <= j < |t|
      ensures Quiet(t[j])
    {
      assert t[j] in t;
    }
  }

  /** The number of lines the process prints. */
  function OutputCount(t: seq<Event>): nat
  {
    if t == [] then 0 else (if t[0].Output? then 1 else 0) + OutputCount(t[1..])
  }

  lemma {:induction false} OutputCountConcat(a: seq<Event>, b: seq<Event>)
    ensures OutputCount(a + b) == OutputCount(a) + OutputCount(b)
  {
    if a != [] {
      assert (a + b)[0] == a[0] && (a + b)[1..] == a[1..] + b;
      OutputCountConcat(a[1..], b);
    } else {
      assert a + b == b;
    }
  }

  lemma {:induction false} ExitOnlyAtEndConcat(a: seq<Event>, b: seq<Event>)
    requires ExitOnlyAtEnd(a) && ExitOnlyAtEnd(b)
    requires b != [] ==> !Terminated(a)
    ensures ExitOnlyAtEnd(a + b)
  {
    forall j | 0 <= j < |a + b| - 1
      ensures !(a + b)[j].Exit?
    {
      if j >= |a| {
        assert (a + b)[j] == b[j - |a|];
      } else if j < |a| - 1 {
        assert (a + b)[j] == a[j];
      } else {
        assert (a + b)[j] == a[|a| - 1];
      }
    }
  }

  /** `err` reports the fault, then ends the process with `EXIT_FAILURE`, and
      nothing comes between. */
  lemma FatalEnds(f: Fault)
    ensures Fatal(f)[0] == Diagnostic(f) && Terminated(Fatal(f)) && Fatal(f)[1].code == EXIT_FAILURE
    ensures ExitOnlyAtEnd(Fatal(f)) && OutputCount(Fatal(f)) == 0
  {
    var t := Fatal(f);
    assert t[1..] == [Exit(EXIT_FAILURE)] && t[1..][1..] == [];
    assert OutputCount(t[1..]) == 0;
  }

  lemma ConcatAssoc(a: seq<Event>, b: seq<Event>, c: seq<Event>)
    ensures a + (b + c) == (a + b) + c
  {
  }
}
