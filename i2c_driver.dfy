/** The Linux I2C shim (`src/bme680_linux_i2c_driver.c`): a millisecond
    delay, opening and addressing the bus device, and register-addressed
    read and write transactions. The kernel's answers to `open`, `ioctl`,
    `write` and `read` are parameters; the calls themselves are events. */
module LinuxI2cDriver {
  import opened CTypes
  import opened LibC
  import opened Events

  /** Size of the stack buffer that holds a write payload. */
  const USER_I2C_BUFFER_LENGTH := 128

  /** The size given to `snprintf` for the device name (its buffer has 20 bytes). */
  const DEVICE_NAME_LIMIT := 19

  /** `user_delay_ms`: one `nanosleep` of exactly `period` milliseconds, with a
      valid `timespec`. The nanoseconds are computed in 32-bit unsigned
      arithmetic, which never wraps here. */
  function DelayMs(period: uint32): (e: Event)
    ensures e.Sleep?
    ensures e.ts.tvSec * 1000 + e.ts.tvNsec / 1_000_000 == period
    ensures 0 <= e.ts.tvSec && 0 <= e.ts.tvNsec < 1_000_000_000
    ensures e.ts.tvNsec % 1_000_000 == 0
  {
    Sleep(Timespec(period / 1000, ((period % 1000) * 1_000_000) % 0x1_0000_0000))
  }

  /** The name `user_i2c_init` formats: `/dev/i2c-` and the bus number in
      decimal. It is never longer than 12 characters, so the `snprintf` limit
      never truncates it. */
  function DeviceName(deviceNr: uint8): (name: string)
    ensures name == "/dev/i2c-" + Decimal(deviceNr)
    ensures |name| <= 12
  {
    DecimalLength(deviceNr, 3);
    Snprintf(DEVICE_NAME_LIMIT, "/dev/i2c-" + Decimal(deviceNr))
  }

  /** The kernel's answers to the calls `user_i2c_init` may make. */
  datatype InitReplies = InitReplies(openRet: int, ioctlRet: int)

  /** The handle after `user_i2c_init`, its return code and its events. */
  datatype InitResult = InitResult(fd: int, rc: int, events: seq<Event>)

  /** `user_i2c_init` run with the handle `fd`: the device is opened only when
      no handle is stored yet, the slave address is then force-bound on the
      handle, and a failure of either call ends the process. */
  function InitOutcome(fd: int, deviceNr: uint8, addr: uint8, replies: InitReplies): (r: InitResult)
    ensures |r.events| > 0
    ensures (Open(DeviceName(deviceNr)) in r.events) <==> fd == 0
    ensures fd == 0 ==> r.fd == replies.openRet && r.events[0] == Open(DeviceName(deviceNr))
    ensures fd != 0 ==> r.fd == fd && r.events[0] == Bind(fd, addr)
    ensures (Bind(r.fd, addr) in r.events) <==> !(fd == 0 && replies.openRet < 0)
    ensures Terminated(r.events) <==> (fd == 0 && replies.openRet < 0) || replies.ioctlRet < 0
    ensures Terminated(r.events) && fd == 0 && replies.openRet < 0 ==>
              r.events == [Open(DeviceName(deviceNr))] + Fatal(OpenFailed(replies.openRet))
    ensures Terminated(r.events) && !(fd == 0 && replies.openRet < 0) ==>
              |r.events| >= 3 && r.events[|r.events| - 3..] == [Bind(r.fd, addr)] + Fatal(BindFailed(replies.ioctlRet))
    ensures !Terminated(r.events) ==> r.rc == 0 && r.events[|r.events| - 1] == Bind(r.fd, addr)
  {
    var opening := if fd == 0 then [Open(DeviceName(deviceNr))] else [];
    var handle := if fd == 0 then replies.openRet else fd;
    if fd == 0 && handle < 0 then
      InitResult(handle, -1, opening + Fatal(OpenFailed(handle)))
    else if replies.ioctlRet < 0 then
      InitResult(handle, -1, opening + [Bind(handle, addr)] + Fatal(BindFailed(replies.ioctlRet)))
    else
      InitResult(handle, 0, opening + [Bind(handle, addr)])
  }

  /** The event sequences `user_i2c_init` can produce, whatever the device
      name: none of them polls, reads or measures, and each may exit only at
      its end. */
  predicate InitShape(t: seq<Event>, open: Event, bind: Event, failure: Event)
  {
    t == [open, failure, Exit(EXIT_FAILURE)] || t == [open, bind, failure, Exit(EXIT_FAILURE)]
    || t == [bind, failure, Exit(EXIT_FAILURE)] || t == [open, bind] || t == [bind]
  }

  lemma InitShapeQuiet(t: seq<Event>, open: Event, bind: Event, failure: Event)
    requires open.Open? && bind.Bind? && failure.Diagnostic?
    requires InitShape(t, open, bind, failure)
    ensures QuietTrace(t) && ExitOnlyAtEnd(t)
  {
  }

  /** Setting up the bus neither reads input nor measures, and the process
      ends only with its last event. */
  lemma InitOutcomeQuiet(fd: int, deviceNr: uint8, addr: uint8, replies: InitReplies)
    ensures QuietTrace(InitOutcome(fd, deviceNr, addr, replies).events)
    ensures ExitOnlyAtEnd(InitOutcome(fd, deviceNr, addr, replies).events)
  {
    var events := InitOutcome(fd, deviceNr, addr, replies).events;
    var open := Open(DeviceName(deviceNr));
    var handle := if fd == 0 then replies.openRet else fd;
    var bind := Bind(handle, addr);
    if fd == 0 && handle < 0 {
      var failure := Diagnostic(OpenFailed(handle));
      assert events == [open, failure, Exit(EXIT_FAILURE)];
      InitShapeQuiet(events, open, bind, failure);
    } else {
      var failure := Diagnostic(BindFailed(replies.ioctlRet));
      if replies.ioctlRet < 0 {
        if fd == 0 {
          assert events == [open, bind, failure, Exit(EXIT_FAILURE)];
        } else {
          assert events == [bind, failure, Exit(EXIT_FAILURE)];
        }
      } else if fd == 0 {
        assert events == [open, bind];
      } else {
        assert events == [bind];
      }
      InitShapeQuiet(events, open, bind, failure);
    }
  }

  /** What the kernel's `read` does: it delivers bytes, or fails (returning -1). */
  datatype ReadReply = Received(bytes: seq<uint8>) | ReadError

  /** The kernel's answers to the two calls of `user_i2c_read`. */
  datatype ReadReplies = ReadReplies(written: int, reply: ReadReply)

  /** The value `read` returns. */
  function ReadRet(r: ReadReply): (n: int)
    ensures n >= -1
    ensures r.Received? ==> n == |r.bytes|
  {
    if r.Received? then |r.bytes| else -1
  }

  /** The payload of a register write: the start register, then the data. */
  function WriteFrame(regAddr: uint8, data: seq<uint8>): (frame: seq<uint8>)
    ensures |frame| == |data| + 1 && frame[0] == regAddr
    ensures forall i :: 0 <= i < |data| ==> frame[i + 1] == data[i]
  {
    [regAddr] + data
  }

  class I2cDriver {
    /** The process-wide bus handle `i2c_fd`; 0 until the bus has been opened. */
    var fd: int

    constructor ()
      ensures fd == 0
    {
      fd := 0;
    }

    /** `user_i2c_init` */
    method Init(deviceNr: uint8, addr: uint8, replies: InitReplies) returns (rc: int, events: seq<Event>)
      modifies this
      ensures var r := InitOutcome(old(fd), deviceNr, addr, replies);
              fd == r.fd && rc == r.rc && events == r.events
    {
      var name := DeviceName(deviceNr);
      events := [];
      if fd == 0 {
        fd := replies.openRet;
        events := events + [Open(name)];
        if fd < 0 {
          events := events + Fatal(OpenFailed(fd));
          rc := -1;
          return;
        }
      }
      var status := replies.ioctlRet;
      events := events + [Bind(fd, addr)];
      if status < 0 {
        events := events + Fatal(BindFailed(status));
        rc := -1;
        return;
      }
      rc := 0;
    }

    /** `user_i2c_read`: a one-byte write of the start register, then a read of
        `len` bytes into `regData`; each must transfer exactly that count. The
        read is never attempted when the address write fails. `devId` is
        unused, as in the source. */
    method Read(devId: uint8, regAddr: uint8, regData: array<uint8>, len: uint16, replies: ReadReplies)
      returns (rc: int, events: seq<Event>)
      requires len as int <= regData.Length
      modifies regData
      ensures |events| > 0 && events[0] == BusWrite(fd, [regAddr])
      ensures replies.written != 1 ==> events == [BusWrite(fd, [regAddr])] + Fatal(ShortWrite(replies.written))
      ensures replies.written == 1 ==> |events| >= 2 && events[1] == BusRead(fd, len)
      ensures rc == 0 <==> replies.written == 1 && ReadRet(replies.reply) == len as int
      ensures rc == 0 ==> events == [BusWrite(fd, [regAddr]), BusRead(fd, len)]
      ensures rc == 0 ==> regData[..len] == replies.reply.bytes && regData[len..] == old(regData[len..])
      ensures rc != 0 ==> Terminated(events)
      ensures replies.written == 1 && rc != 0 ==> events[2..] == Fatal(ShortRead(ReadRet(replies.reply)))
    {
      var rbuf := new uint8[1];
      rbuf[0] := regAddr;
      var n := replies.written;
      events := [BusWrite(fd, rbuf[..])];
      if n != 1 {
        events := events + Fatal(ShortWrite(n));
        rc := -1;
        return;
      }
      n := ReadRet(replies.reply);
      events := events + [BusRead(fd, len as nat)];
      if n != len as int {
        events := events + Fatal(ShortRead(n));
        rc := -1;
        return;
      }
      forall i | 0 <= i < len as int {
        regData[i] := replies.reply.bytes[i];
      }
      rc := 0;
    }

    /** `user_i2c_write`: the start register and the `len` data bytes are
        copied into one buffer and sent in a single write, which must be
        accepted in full. `regData` cannot change: the method may modify
        nothing. */
    method Write(devId: uint8, regAddr: uint8, regData: array<uint8>, len: uint16, written: int)
      returns (rc: int, events: seq<Event>)
      requires len as int <= regData.Length
      requires len as int + 1 <= USER_I2C_BUFFER_LENGTH
      ensures |events| > 0 && events[0] == BusWrite(fd, WriteFrame(regAddr, regData[..len]))
      ensures rc == 0 <==> written == len as int + 1
      ensures rc == 0 ==> events == [BusWrite(fd, WriteFrame(regAddr, regData[..len]))]
      ensures rc != 0 ==> events[1..] == Fatal(ShortWrite(written))
    {
      var buf := new uint8[USER_I2C_BUFFER_LENGTH];
      buf[0] := regAddr;
      for i := 0 to len as int
        invariant buf[0] == regAddr
        invariant forall j :: 0 <= j < i ==> buf[j + 1] == regData[j]
      {
        buf[i + 1] := regData[i];
      }
      assert buf[..len as int + 1] == WriteFrame(regAddr, regData[..len]);
      events := [BusWrite(fd, buf[..len as int + 1])];
      if written != len as int + 1 {
        events := events + Fatal(ShortWrite(written));
        rc := -1;
        return;
      }
      rc := 0;
    }
  }
}
