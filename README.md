# BME680 / BME280 command-line readers: a Dafny model

This project models two small Linux programs that read a Bosch environmental
sensor over I2C and print one reading per command received on standard input.

- **The I2C shim.** `src/bme680_linux_i2c_driver.c` is the layer beneath the
  sensor library. It provides:
  - the millisecond delay;
  - opening the `/dev/i2c-N` device and force-binding the slave address;
  - register-addressed read transactions: one address byte, then `len` bytes;
  - register-addressed write transactions: the address byte and the data in a
    single write.
- **The BME680 front end.** `src/main.c`:
  - parses the bus number and slave address;
  - starts the sensor;
  - loops: poll standard input, read a chunk with `fgets`, and run one
    measurement per command. A measurement triggers, waits, fetches and prints
    T, P, H, plus G when the gas-valid bit is set.
- **The BME280 front end.** `src_bme280/main.c` is the same program for the
  BME280, with these differences:
  - every library status is checked, and any failure ends the process;
  - the command is the whole line `measure\n`;
  - a reading has three fields.

The model is a trace semantics. Each program run is a sequence of `Events.Event`:

- system calls: `Open`, `Bind`, `BusWrite`, `BusRead`, `Sleep`, `Poll`, `Gets`;
- vendor-library calls: `SensorInit`, `SensorSettings`, `Trigger`, `Fetch`;
- printed lines: `Output` with the set of fields;
- diagnostics and the exit status: `Diagnostic`, `Exit`.

Everything the environment decides is a parameter:

- the kernel's return values (`InitReplies`, `ReadReplies`);
- the poll results, a finite window `seq<int>`;
- the text on standard input;
- the vendor library's answers (`Bme680Lib`, `Bme280Lib`): for each call, a
  `CallAnswer` holding its status and whether its bus transfers completed
  (`Transfers`); the measurement duration; and the sample status byte.

`err(EXIT_FAILURE, …)` is a `Diagnostic` followed by `Exit(1)`.

Both front ends hand the shim's `user_i2c_read` and `user_i2c_write` to the
library as callbacks (src/main.c:66-68, src_bme280/main.c:80-82). A short
transfer inside a library call therefore ends the process within that call,
with the shim's diagnostic (`ShortWrite` or `ShortRead`), before the call
returns a status. `Events.LibraryCall` is that rule: the call's event, then,
when a transfer was cut, `err` with the shim's fault.

Modules:

- **`CTypes`**: C integer types and the modulo conversions C applies when storing into `uint8_t` and `uint16_t`.
- **`LibC`**: the C library as far as the programs depend on it:
  - `%d` formatting and `snprintf` truncation;
  - `atoi`;
  - `strcmp`'s view of a NUL-terminated buffer;
  - `fgets` on a character stream: it stops after a newline, at `size - 1` characters, or at the end of input, and returns NULL at the end of input (read errors are not modelled; see "## Left out").
- **`Events`**: the trace alphabet, the trace predicates, `err`, and the rule for a library call whose transfer is cut.
- **`LinuxI2cDriver`**: the shim.
  - The global `i2c_fd` is the field of class `I2cDriver`, which `Init` updates lazily.
  - `Read` fills the caller's array.
  - `Write` copies the payload into a 128-byte local array in a `for` loop.
- **`RegisterDevice`**: a register-addressed slave, used as the partner of the shim's framing. A register write followed by a register read of the same length returns the data written.
- **`CommandLine`**: the argument handling shared by both `main` functions.
- **`CommandLoop`**: the poll / `fgets` / dispatch loop as one function `Loop`, parameterised by the command token and by the measurement cycle. It comes with trace properties proved by induction over the poll window:
  - **well ordered**: input is read only after a ready poll, a trigger follows the settings or an accepted command, a fetch follows a trigger and the wait, and a print follows a fetch;
  - **dispatched**: each chunk read is answered;
  - **exit only at end**: nothing happens after the process ends;
  - **counting**: how many lines are printed.
- **`Bme680App`** and **`Bme280App`**: each front end's
  - `output_measurement`;
  - the input branch of the loop (`HandleInput`) and one turn of it (`Turn`);
  - the `while` loop itself (`Serve`, proved to produce exactly `Loop`'s trace);
  - the start-up (`Start`) and the whole `main` (`Run`), proved equal to the specification function `MainTrace`;
  - the properties of whole runs.

Behaviour of the programs worth knowing in advance:

- **Invalid commands.** An invalid command ends the process through `err`; it is not reported and skipped.
- **Runtime failures.** Bus and library failures are not recovered from. They end the process:
  - in the shim, always, including inside a library call;
  - in the BME280 front end, also for a library call that returns a failing status.
- **End of input.** At the end of input `main` returns 1, so the exit status is 1, not 0.
- **The BME680 command.** The BME680 program compares the chunk read with `"measure"`, without a newline, so the line `"measure\n"` is rejected: see `Bme680App.NewlineCommandRejected` and "## Findings".

## Model

| member | source | states |
|---|---|---|
| CTypes.ToUint8 | src/main.c:55 | storing into `uint8_t` keeps the value modulo 256, and keeps values already in range unchanged |
| CTypes.ToUint16 | src_bme280/main.c:24 | passing a `uint32_t` as `uint16_t` keeps it modulo 65536, and keeps values below 65536 unchanged |
| Events.FatalEnds | src/main.c:57 | `err(EXIT_FAILURE, …)` reports its fault, then ends the process with exit status 1; nothing comes between, nothing is printed, and the process ends only at its last event |
| Events.Interruption | src/bme680_linux_i2c_driver.c:75-85 | a cut transfer is reported by the shim as a short write when the write was cut and as a short read when the read was cut |
| Events.LibraryCall | src/bme680_linux_i2c_driver.c:119-123 | a library call is its event, followed by nothing when its transfers complete; when a transfer is cut, the shim ends the process inside the call with its short-transfer diagnostic, so the call never returns |
| LibC.Decimal | src/bme680_linux_i2c_driver.c:27 | `%d` of a non-negative value is a non-empty digit string without a leading zero unless the value is 0 |
| LibC.AtoiDecimal | src/main.c:51 | `atoi` reads back exactly the number `%d` prints |
| LibC.AtoiDigits | src/main.c:51 | `atoi` of a string of decimal digits is its decimal value: no white space is skipped, no sign is read, and every character is taken |
| LibC.Snprintf | src/bme680_linux_i2c_driver.c:27 | `snprintf` stores a prefix of the text of at most `size - 1` characters, and the whole text when it fits |
| LibC.CString | src/main.c:123 | the string `strcmp` sees is the buffer's prefix up to its first NUL, and contains no NUL |
| LibC.Fgets | src/main.c:119 | `fgets` returns NULL when no character is left; otherwise it returns a non-empty prefix shorter than `size` that contains no newline except possibly the last character, and that ends at a newline, at `size - 1` characters or at the end of the stream |
| LibC.FgetsLine | src/main.c:119 | a line that ends at its only newline and fits the buffer is read whole, whatever follows it |
| LibC.FgetsText | src/main.c:119 | a short text without a newline at the end of the stream is read whole |
| LibC.CStringOfText | src/main.c:123 | `strcmp` sees all of a buffer with no NUL character |
| LinuxI2cDriver.DelayMs | src/bme680_linux_i2c_driver.c:16-22 | the `timespec` passed to `nanosleep` satisfies `tv_sec*1000 + tv_nsec/10^6 == period` and `0 <= tv_nsec < 10^9`, its nanoseconds are whole milliseconds, and the 32-bit multiplication never wraps |
| LinuxI2cDriver.DeviceName | src/bme680_linux_i2c_driver.c:26-27 | the device name is `/dev/i2c-` followed by the decimal bus number, and is at most 12 characters, so the limit of 19 never truncates it |
| LinuxI2cDriver.InitOutcome | src/bme680_linux_i2c_driver.c:24-46 | the device is opened exactly when no handle is stored; a stored handle is reused and only re-bound; the bind is issued exactly when there is a valid handle; the process ends exactly when the open or the bind fails, with the matching diagnostic; otherwise it returns 0 with the bind as its last event |
| LinuxI2cDriver.InitOutcomeQuiet | src/bme680_linux_i2c_driver.c:24-46 | bus set-up never polls, reads input or measures, and can end the process only with its last event |
| LinuxI2cDriver.WriteFrame | src/bme680_linux_i2c_driver.c:110-119 | the payload has `len + 1` bytes: the register address, then `reg_data[i]` at position `i + 1` |
| LinuxI2cDriver.ReadRet | src/bme680_linux_i2c_driver.c:81 | `read` returns the number of bytes delivered, or -1 |
| LinuxI2cDriver.I2cDriver.constructor | src/bme680_linux_i2c_driver.c:14 | the handle starts at 0 (no bus opened) |
| LinuxI2cDriver.I2cDriver.Init | src/bme680_linux_i2c_driver.c:24-46 | the new handle, the return code and the events are those of `InitOutcome` on the old handle |
| LinuxI2cDriver.I2cDriver.Read | src/bme680_linux_i2c_driver.c:48-88 | the first event writes exactly the one byte `reg_addr`. If that write returns anything but 1, no read is attempted and the process ends. The call succeeds exactly when the write returns 1 and the read returns `len`. On success the first `len` array elements hold the bytes read and the rest are unchanged. Each failure ends the process with its diagnostic |
| LinuxI2cDriver.I2cDriver.Write | src/bme680_linux_i2c_driver.c:90-126 | one write of `WriteFrame(reg_addr, reg_data[..len])`; success exactly when `len + 1` bytes are accepted; `reg_data` is not modified (the method modifies nothing); otherwise the process ends with the diagnostic |
| RegisterDevice.WriteThenRead | src/bme680_linux_i2c_driver.c:55-119 | against a register-addressed slave, the write framing (address byte, then data) followed by the read framing (address byte, then a read of the same length) returns the data written, per the bus tables of the two functions |
| CommandLine.ParseArgs | src/main.c:47-60 | no arguments give bus 1 and the primary address. The bus is `atoi(argv[1])` modulo 256. The address is accepted exactly when `atoi(argv[2])` modulo 256 is the primary or the secondary address. A rejection carries the truncated address. The same rule is applied in src_bme280/main.c:60-74 |
| CommandLine.AtoiThreeDigits | src/main.c:55 | `atoi` of a three-digit argument is the hundreds, tens and units of its digits |
| CommandLine.RefusedAddress | src/main.c:54-59 | the address is compared after truncation to 8 bits: with the addresses 0x76/0x77, "200" is refused with the address 200 |
| CommandLine.WrappedAddress | src/main.c:54-59 | "374", which is 0x176, is accepted as the address 0x76 |
| CommandLoop.Respond | src/main.c:118-127 | the reply to a ready poll starts with the `fgets`; the loop goes on only after consuming input; when it stops, the process has ended |
| CommandLoop.RespondCases | src/main.c:119-127 | the reply case by case: at the end of input, exit status 1; on the token, the `k`-th cycle, the loop going on unless the cycle ended the process, and the input advanced past the chunk; otherwise the diagnostic naming the chunk |
| CommandLoop.LoopStep | src/main.c:115-129 | one turn of the loop, from any position: a poll result <= 0 polls again with the input untouched; otherwise the reply, then the rest of the loop if it goes on |
| CommandLoop.LoopAccepting | src/main.c:117-124 | a ready poll that reads the token runs one cycle and goes on with the rest of the input |
| CommandLoop.LoopStopping | src/main.c:117-124 | a ready poll that reads the token and runs a cycle that ends the process ends the loop with that cycle: nothing is polled or read after it |
| CommandLoop.LoopRejecting | src/main.c:117-127 | a ready poll that reads anything else ends the process with the diagnostic |
| CommandLoop.LoopWellOrdered | src/main.c:115-129 | for cycles that start with a trigger, fetch after the wait and print after the fetch, every trace of the loop is well ordered |
| CommandLoop.LoopExitOnlyAtEnd | src/main.c:115-129 | every trace of the loop ends the process, if at all, only with its last event |
| CommandLoop.LoopDispatched | src/main.c:119-127 | in every trace of the loop, each chunk read is followed by exit 1 (NULL), by a trigger (the token), or by the diagnostic (anything else) |
| CommandLoop.LoopCongruence | src/main.c:115-129 | the loop depends on the cycles only through the events they produce |
| CommandLoop.LoopWithoutInput | src/main.c:119-121 | with no input left, nothing is ever printed |
| CommandLoop.AnswersEach | src_bme280/main.c:126-140 | with every poll ready and every cycle printing one line, as many whole-line commands as there are polls or fewer print exactly `n` lines |
| CommandLoop.AnswersUntilClosed | src_bme280/main.c:126-140 | under the same conditions, more commands than polls print one line per poll |
| CommandLoop.LoopAnswers | src_bme280/main.c:126-140 | under the same conditions, `n` whole-line commands print as many lines as the smaller of `n` and the number of polls |
| Bme680App.OutputFields | src/main.c:33-39 | the line always has T, P, H, in that order, and has G exactly when bit 5 (`BME680_GASM_VALID_MSK`) of the status byte is set |
| Bme680App.Wait | src/main.c:28 | the sleep of `meas_period` is `user_delay_ms(meas_period)`, whose `timespec` adds up to `meas_period` milliseconds; the start-up sleep at src/main.c:111 is the same event |
| Bme680App.Measurement | src/main.c:27-41 | a measurement starts with the trigger; it ends the process exactly when a transfer of the trigger or of the fetch is cut; otherwise its last event prints the fields selected by the status byte |
| Bme680App.MeasurementSteps | src/main.c:27-41 | a cut trigger is followed by the shim's `err` and no sleep or fetch. After a completed trigger come the sleep and the fetch. A cut fetch is followed by `err` and no line. Exactly one line is printed when both calls complete, and none otherwise |
| Bme680App.MeasurementShape | src/main.c:27-29 | the order of a measurement, not that its steps occur: it starts with its only trigger and never polls or reads input; a fetch comes only right after the trigger and the sleep of `meas_period`; a line is printed only right after a fetch; the process ends only at its last event |
| Bme680App.MeasurementCycles | src/main.c:124 | every command's measurement, run with the one `meas_period` of start-up, is well shaped: it starts with its only trigger, reads no input, fetches only right after the trigger and that sleep, prints only right after the fetch, and ends the process only at its last event |
| Bme680App.OutputMeasurement | src/main.c:23-42 | `output_measurement` produces the `k`-th cycle of the model, whatever the library statuses |
| Bme680App.HandleInput | src/main.c:118-127 | the input branch of the loop body produces exactly `Respond` |
| Bme680App.Turn | src/main.c:117-128 | one pass of the `while(1)` body is one step of `Loop` |
| Bme680App.Serve | src/main.c:113-129 | the `while(1)` loop, over the poll window, appends exactly `Loop`'s trace |
| Bme680App.Session | src/main.c:62-129 | what follows the bus set-up starts with it; a failed set-up is the whole trace; otherwise the start-up follows, and when the start-up ended the process nothing else does |
| Bme680App.Startup | src/main.c:75-111 | start-up is init, settings, the start-up mode call and the sleep of `meas_period`, whatever their statuses. A call whose transfer is cut ends the process with the shim's diagnostic right after it, and no later call is made. Start-up reads no input, never polls, prints nothing and is well ordered |
| Bme680App.Start | src/main.c:62-129 | `main` after argument parsing produces `Session` of the set-up on a fresh handle |
| Bme680App.MainTrace | src/main.c:50-60 | a rejected address ends the process with the diagnostic before any bus operation |
| Bme680App.Run | src/main.c:44-130 | `main` produces `MainTrace` |
| Bme680App.MainWellOrdered | src/main.c:104-129 | every run is well ordered, with every fetch preceded by the sleep of the one `meas_period` obtained at start-up |
| Bme680App.MainDispatched | src/main.c:117-127 | in every run, each chunk read is answered: exit 1 on NULL, a measurement on `"measure"`, the diagnostic otherwise |
| Bme680App.MainExitOnlyAtEnd | src/main.c:44-130 | nothing happens after the process ends |
| Bme680App.StartupCutStops | src/main.c:75-111 | a cut transfer in init, settings or the start-up mode call ends the process before the first poll |
| Bme680App.StatusesIgnored | src/main.c:75-111 | runs with libraries that differ only in the status codes they return (their transfers being cut alike) are identical |
| Bme680App.ChunkIsToken | src/main.c:123 | a NUL-free chunk that `strcmp` finds equal to `"measure"` is `"measure"` |
| Bme680App.TokenIsWholeInput | src/main.c:119-123 | over NUL-free input, a chunk accepted as `"measure"` is all the remaining input |
| Bme680App.LoopAtMostOneMeasurement | src/main.c:115-129 | over NUL-free input, the loop prints at most one line |
| Bme680App.ReadyPollMeasuresOnce | src/main.c:117-127 | a ready poll over NUL-free input leads to at most one printed line in the rest of the loop |
| Bme680App.WholeInputMeasuresOnce | src/main.c:117-127 | a ready poll that reads `"measure"` as the whole remaining input leads to at most one printed line, whether or not the measurement ends the process |
| Bme680App.SessionAtMostOneMeasurement | src/main.c:62-129 | after a quiet set-up, over NUL-free input, at most one line is printed |
| Bme680App.MainAtMostOneMeasurement | src/main.c:44-130 | every run over NUL-free input prints at most one reading |
| Bme680App.NewlineCommandRejected | src/main.c:119-127 | the line `"measure\n"`, whatever follows it, ends the process with a diagnostic instead of measuring |
| Bme680App.MeasureWholeInput | src/main.c:119-124 | `"measure"` as the whole remaining input is measured once; when the measurement ends the process the loop stops there, and otherwise it runs on empty input |
| Bme680App.LineCommandsAnswered | src/main.c:123 | with the comparison against `"measure\n"`, `n` command lines with every poll ready and no transfer cut print as many readings as the smaller of `n` and the number of polls |
| Bme280App.Wait | src_bme280/main.c:24-35 | a measurement sleeps the delay modulo 2^16, and the full delay when it is below 2^16 |
| Bme280App.CallFault | src_bme280/main.c:88-92 | a failed call is reported with its status when its transfers completed, and with the shim's short-transfer fault when one was cut |
| Bme280App.Startup | src_bme280/main.c:88-123 | start-up is init, settings, the start-up mode call and the sleep of the full `req_delay`. The first call that fails ends the process right after it, and no later call is made: with the shim's diagnostic when one of its transfers was cut, and with the call and its status when it returned a status other than `BME280_OK`. Start-up reads no input, never polls, and is well ordered |
| Bme280App.Measurement | src_bme280/main.c:29-54 | a measurement ends the process exactly when the trigger or the fetch fails, by a cut transfer or by a status other than `BME280_OK` |
| Bme280App.MeasurementSteps | src_bme280/main.c:29-54 | a failed trigger is followed by its `err` and no sleep or fetch. After a successful trigger come the sleep and the fetch. A failed fetch is followed by its `err` and no line. Exactly one line with T, P, H is printed when both calls succeed, and none otherwise |
| Bme280App.MeasurementShape | src_bme280/main.c:29-40 | the order of a measurement, not that its steps occur: it starts with its only trigger and never polls or reads input; a fetch comes only right after the trigger and the sleep of the truncated delay; a line is printed only right after a fetch; the process ends only at its last event |
| Bme280App.MeasurementCycles | src_bme280/main.c:135 | every command's measurement, run with the one `req_delay` of start-up, is well shaped: it starts with its only trigger, reads no input, fetches only right after the trigger and the truncated sleep, prints only right after the fetch, and ends the process only at its last event |
| Bme280App.OutputMeasurement | src_bme280/main.c:24-55 | `output_measurement` produces the `k`-th cycle of the model, with each status checked |
| Bme280App.HandleInput | src_bme280/main.c:129-138 | the input branch of the loop body produces exactly `Respond`, with the delay passed as `uint16_t` |
| Bme280App.Turn | src_bme280/main.c:128-139 | one pass of the `while(1)` body is one step of `Loop` |
| Bme280App.Serve | src_bme280/main.c:124-140 | the `while(1)` loop, over the poll window, appends exactly `Loop`'s trace |
| Bme280App.Session | src_bme280/main.c:76-140 | what follows the bus set-up starts with it; a failed set-up is the whole trace; otherwise the start-up follows, and when a start-up call failed nothing else does |
| Bme280App.Start | src_bme280/main.c:76-140 | `main` after argument parsing produces `Session` of the set-up on a fresh handle |
| Bme280App.MainTrace | src_bme280/main.c:64-74 | a rejected address ends the process with the diagnostic before any bus operation |
| Bme280App.Run | src_bme280/main.c:57-141 | `main` produces `MainTrace` |
| Bme280App.MainWellOrdered | src_bme280/main.c:114-140 | every run is well ordered, with every fetch preceded by the sleep of the delay computed once at start-up |
| Bme280App.MainDispatched | src_bme280/main.c:128-138 | in every run, each chunk read is answered: exit 1 on NULL, a measurement on `"measure\n"`, the diagnostic otherwise |
| Bme280App.MainExitOnlyAtEnd | src_bme280/main.c:57-141 | nothing happens after the process ends |
| Bme280App.StartupFailureStops | src_bme280/main.c:88-121 | a failed init, settings or start-up mode call, whether by a cut transfer or by its status, ends the process before the first poll |
| Bme280App.CommandsAnswered | src_bme280/main.c:126-140 | with a library whose calls all succeed, transfers included, and every poll ready, `n` command lines print as many readings as the smaller of `n` and the number of polls |
| Bme280App.CommandWaitTruncated | src_bme280/main.c:114-135 | with a delay of 65541 ms, each command sleeps 5 ms, while a start-up that is not cut sleeps the full 65541 ms as its fourth event; the two sleeps differ |

## Left out

- Floating-point formatting of readings (src/main.c:34-38, src_bme280/main.c:50-51) is left out. An `Output` event records only which fields the line holds. The scaling, the widths, and the truncation of the 40- and 64-byte output buffers are not modelled.
- The vendor libraries (`bme680_*`, `bme280_*`) are an oracle. Their source is not part of this model. Statuses, the profile duration, the measurement delay and the sample status byte are parameters, so compensation and the delay formula are not modelled.
- The configuration the front ends store into the device structures (oversampling, filter, heater) is not modelled; it reaches the trace only through the library oracle. The callback wiring is modelled only through `Events.LibraryCall`.
- A library call is one event. The bus traffic it makes through the shim callbacks, and the sleeps it makes through `user_delay_ms`, are not events; the model records only whether one of its transfers was cut. `bme680_get_profile_dur` and `bme280_cal_meas_delay` are taken to make no transfer.
- LibC.Fgets: read errors on standard input are not modelled; `fgets` returns NULL only at the end of input. A read error would end both programs with status 1 as the end of input does, so `Bme280App.CommandsAnswered` and `Bme680App.LineCommandsAnswered` hold for error-free input only.
- `src_bme280/bme280_linux_i2c_driver.c` is not part of this model. The BME280 front end is taken to use the BME680 shim's behaviour, which matches the prototypes in `src_bme280/bme280_linux_i2c_driver.h`.
- System calls are not modelled, only their return values. `poll`, `open`, `ioctl`, `read`, `write` and `nanosleep` are events whose return values are parameters. `poll_input`'s `pollfd` set-up is not modelled. A negative poll result is treated like a timeout, as the code does.
- `while(1)` is modelled over a finite window of poll results. When the window is used up, the trace ends with the process still running, so liveness is not stated.
- Poll results are parameters, independent of the input. The model does not capture that `poll` looks at the file descriptor, not at stdio's buffer: when several command lines arrive together, `fgets` takes them into its buffer at the first read, and the next `poll` may not report ready although a line is waiting. `CommandLoop.LoopAnswers`, `Bme280App.CommandsAnswered` and `Bme680App.LineCommandsAnswered` assume every poll reports ready.
- `puts`, `fprintf` and `fflush` are a single `Output` event. Buffering is not modelled.
- Diagnostics record the fault and its value, not the exact `err` message text or `strerror` suffix. The `return -1` after `err` is unreachable and is not modelled.
- CommandLoop.Respond: an invalid command is recorded as `InvalidCommand` with the whole chunk read. Neither program prints that: the BME680 program prints only the chunk's first character as a number (`%d` at src/main.c:126), and the BME280 program prints the chunk up to its first NUL (`%s` at src_bme280/main.c:137). Both printed values are determined by the recorded chunk.
- Standard input is a sequence of characters, not bytes. The model does not cover encodings.
- LinuxI2cDriver.I2cDriver.Write requires `len + 1 <= 128`. For longer payloads the source writes past its 128-byte stack buffer, which is undefined behaviour and is not modelled.
- LinuxI2cDriver.I2cDriver.Read requires the caller's buffer to hold `len` bytes. It does not model the bytes a short `read` stores before the process ends.
- Bme680App.MeasurementShape states only the order of a measurement's steps, not that the sleep, the fetch and the print occur; that is stated by `Bme680App.MeasurementSteps` and `Bme680App.Measurement`.
- Bme280App.MeasurementShape states only the order of a measurement's steps, not that the truncated sleep, the fetch and the print occur; that is stated by `Bme280App.MeasurementSteps`.
- CommandLoop.Loop has no contract of its own; the loop is specified by the lemmas about it (`LoopStep`, `LoopAccepting`, `LoopStopping`, `LoopRejecting`) and by the `Serve` methods proved equal to it.
- CommandLine.ParseArgs reads the digits of an argument exactly and then reduces them modulo 256. `atoi` on a number outside the range of `int` is undefined in C, and that case is not modelled.

## Findings

| source | as written | input that shows it | evidently intended | confidence | as-written member | corrected member |
|---|---|---|---|---|---|---|
| src/main.c:123 | the chunk from `fgets` is compared with `"measure"`, which has no newline, but `fgets` keeps the newline of a line | the line `"measure\n"` (the form the BME280 program compares against) ends the process with "Invalid command". Over any input without NUL characters, a run prints at most one reading | compare with the whole line `"measure\n"`, as src_bme280/main.c:134 does, so that each command line gives one reading | medium; not executed | Bme680App.NewlineCommandRejected | Bme680App.LineCommandsAnswered |
