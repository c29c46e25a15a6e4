# polyglot-turtle example logic, modelled in Dafny

polyglot-turtle is a USB adapter that exposes GPIO, I2C, SPI and a JTAG
bit-bang transfer to a host Python library. The repository's examples are
mostly straight-line scripts. Four of them contain logic of their own, and
this project models and verifies those four.

- **`JtagServer` (openocd_jtag_fast.py)**: a TCP bridge from OpenOCD's
  remote_bitbang protocol to the adapter's `openocd_jtag` call.
  - The constructor range-checks the four pins in the order TDI, TDO, TMS, TCK, then configures their GPIO.
  - `start_server` and `stop_server` drive a lifecycle guarded by the `_terminate` flag, which is never cleared.
  - A listener thread accepts clients, queues received data, and closes sockets that hang up.
  - A processor thread takes queued chunks first-in first-out, makes one adapter transfer per chunk, and sends any non-empty response to the current client `_sock`.

  The model is split into three modules:
  - `JtagConfig`: the pins, their checks, and the adapter as a log of calls.
  - `JtagListener`: one listener pass as a pure function, its closed form and its bookkeeping invariant.
  - `JtagBridge`: class `JtagServer`. Its methods mutate the fields `readList`, `sock`, `queue`, `closed`, `terminated`, ... in place. Each thread iteration is proved equal to a step function on a `ServerState` value, and the invariant `Inv` is proved to hold across every step.
- **FRAM helpers (i2c_fram.py)**: an 11-bit memory address is split into three upper bits, which select the I2C device `0x50 | upper`, and one offset byte. Module `Fram`.
- **Bouncing LED (i2c_bus_expander_pcal6416a_example.py)**: a `ticker`/`direction` pair walks 0..7 and back. Each pass writes `0xFF ^ (1 << ticker)` to the PCAL6416A's output register. Module `BusExpander`: class `LedBouncer` runs the loop, and the loop is proved against the closed form `Iterate`/`Triangle`.
- **JEDEC ID check (spi_flash_example.py)**: the manual decode `data[1]`, `(data[2] << 8) | data[3]` and `struct.unpack(">xBH")`, the two ID checks, the three-read comparison, and the zero padding of the command to `read_size`. Module `SpiFlash`.

The shared modules are:
- `Base`: bytes, and `Option`/`Result`/`Outcome`, which stand for Python's exceptions.
- `Bits`: Python's `&` (any `x`, non-negative mask) and `|`, `^`, `<<`, `>>` on non-negative integers, defined bit by bit, with the facts the scripts need.

Hardware, sockets and time are inputs:
- an SPI reply is a parameter;
- the sockets `select` reports readable are a parameter, and so is `recv`'s answer per socket;
- the adapter's answer to a transfer is a function of its whole call log (`Adapter.respond`);
- I2C writes are recorded, not sent.

The model follows the code as written, including where a reader might expect otherwise:
- The constructor does not require the four pins to be distinct. `SharedPinsAccepted` and `ConfiguredPins` show what a shared TDI/TDO pin leads to.
- A second accept overwrites `_sock`.
- A hang-up does not clear `_sock`.
- `__enter__` returns None rather than the server.

## Model

| member | source | states |
|---|---|---|
| JtagConfig.ValidatePins | openocd_jtag_fast.py:20-27 | passes exactly when all four pins lie in 0..3; otherwise the error names the first failing pin in the order TDI, TDO, TMS, TCK; distinctness is not checked |
| JtagConfig.SharedPinsAccepted | openocd_jtag_fast.py:20-27 | pins (0, 0, 1, 2), with TDI and TDO shared, pass the checks |
| JtagConfig.TransferCalls | openocd_jtag_fast.py:111-115 | one transfer per chunk, in order, each with the four pins |
| JtagConfig.SetupSettings | openocd_jtag_fast.py:34-39 | the five setup calls leave TDO an input with pull NONE, TDI/TMS/TCK outputs unless equal to TDO, and nothing else set |
| JtagConfig.SetupCalls | openocd_jtag_fast.py:34-39 | no contract of its own; the order and effect of the five calls are stated by `JtagConfig.SetupSettings` and `JtagConfig.ConfiguredPins` |
| JtagConfig.TransfersKeepSettings | openocd_jtag_fast.py:111-115 | transfers set no pin direction or pull |
| JtagConfig.SettingsAppend | openocd_jtag_fast.py:34-39 | a later direction/pull call on a pin overrides earlier ones; other pins keep theirs |
| JtagConfig.ConfiguredPins | openocd_jtag_fast.py:34-39 | after construction and any number of transfers: TDO is INPUT with pull NONE, TDI/TMS/TCK are OUTPUT unless shared with TDO (then INPUT), other pins are as before |
| JtagConfig.Adapter.constructor | openocd_jtag_fast.py:17-18 | an adapter with an empty call log and the given hardware response function |
| JtagConfig.Adapter.GpioSetDirection | openocd_jtag_fast.py:34-38 | appends exactly one direction call to the log |
| JtagConfig.Adapter.GpioSetPull | openocd_jtag_fast.py:39 | appends exactly one pull call to the log |
| JtagConfig.Adapter.OpenocdJtag | openocd_jtag_fast.py:111-115 | appends exactly one transfer with the pins and data, and returns the hardware's answer to the whole log, None when the call raises |
| JtagListener.Initial | openocd_jtag_fast.py:77 | the listener's start state, `read_list = [server_socket]` with no client, satisfies the bookkeeping invariant (server socket first, no repeats, every accepted client listed or closed) |
| JtagListener.Accept | openocd_jtag_fast.py:81-85 | no contract of its own; stated by `JtagListener.AcceptKeepsInv` and `JtagListener.ScanClosedForm` |
| JtagListener.Scan | openocd_jtag_fast.py:80-94 | no contract of its own; stated by `JtagListener.ScanClosedForm`, `JtagListener.HangupEndsScan` and `JtagListener.ScanKeepsInv` |
| JtagListener.Remove | openocd_jtag_fast.py:93 | no contract of its own; stated by `JtagListener.RemoveSplits` and `JtagListener.RemoveFromDistinct` |
| JtagListener.Delivered | openocd_jtag_fast.py:87-90 | only non-empty recv data is ever queued |
| JtagListener.ScanClosedForm | openocd_jtag_fast.py:80-94 | a scan appends the accepted clients to `read_list` in order, makes the last of them `_sock` (replacing any earlier one), appends non-empty recv data to the queue unchanged and in order, and on the first empty recv closes and removes only that socket and stops |
| JtagListener.HangupEndsScan | openocd_jtag_fast.py:91-94 | an empty recv ends the scan: later readable sockets are not served, `_sock` and the queue are unchanged, only that socket is closed and removed |
| JtagListener.RemoveSplits | openocd_jtag_fast.py:93 | `remove` drops exactly the first occurrence and keeps the order of the rest |
| JtagListener.RemoveFromDistinct | openocd_jtag_fast.py:93 | on a list without repeats, `remove` deletes that socket, keeps every other member and the head, and adds no repeats |
| JtagListener.AcceptKeepsInv | openocd_jtag_fast.py:81-85 | an accept keeps the invariant: server socket first, no repeats, every accepted client listed or closed, `_sock` an accepted client |
| JtagListener.HangupKeepsInv | openocd_jtag_fast.py:91-94 | closing and removing a client keeps the invariant, and the server socket stays first |
| JtagListener.ScanKeepsInv | openocd_jtag_fast.py:80-94 | a whole scan keeps the invariant when `select` reports only listed sockets |
| JtagListener.Shutdown | openocd_jtag_fast.py:96-101 | every socket in `read_list` ends up closed, and so does the server socket; sockets closed earlier stay closed, nothing else is newly closed, and the rest of the state is unchanged |
| JtagListener.ShutdownClosesEverything | openocd_jtag_fast.py:96-101 | after shutdown every client ever accepted is closed, including `_sock` |
| JtagBridge.ReplyFor | openocd_jtag_fast.py:117-118 | a response is sent exactly when it is non-empty and `_sock` is set; it goes to `_sock`; a send on a closed `_sock` fails |
| JtagBridge.ConstructedInv | openocd_jtag_fast.py:29-50 | the freshly constructed server satisfies the server invariant |
| JtagBridge.StartKeepsInv | openocd_jtag_fast.py:52-59 | starting keeps the invariant, and the listener begins with only the server socket |
| JtagBridge.Started | openocd_jtag_fast.py:52-59 | no contract of its own; stated by `JtagBridge.StartKeepsInv` and `JtagBridge.JtagServer.StartServer` |
| JtagBridge.ListenerStep | openocd_jtag_fast.py:79-101 | no contract of its own; stated by `JtagBridge.ListenerKeepsInv`, `JtagBridge.NoSendAfterListenerExit` and `JtagBridge.TerminationIsFinal`, and computed in place by `JtagBridge.JtagServer.ListenerIteration` |
| JtagBridge.ProcessStep | openocd_jtag_fast.py:105-118 | no contract of its own; stated by `JtagBridge.ProcessTransfersHead`, `JtagBridge.ProcessKeepsInv`, `JtagBridge.FailedTransferEndsProcessor` and `JtagBridge.SendOutcome`, and computed in place by `JtagBridge.JtagServer.ProcessIteration` |
| JtagBridge.ListenerKeepsInv | openocd_jtag_fast.py:72-101 | a listener pass keeps the invariant, and all received data is queued in order |
| JtagBridge.ProcessTransfersHead | openocd_jtag_fast.py:105-115 | a pass over a non-empty queue, not terminated, makes exactly one adapter call, the transfer of the head chunk, and removes that chunk from the queue; otherwise it makes no call and leaves the queue alone |
| JtagBridge.ProcessKeepsCallsAndQueue | openocd_jtag_fast.py:105-115 | after a processor pass the adapter log is still the setup followed by the transfers of the forwarded chunks, and forwarded followed by queued is still everything received, in order |
| JtagBridge.ProcessKeepsSockets | openocd_jtag_fast.py:117-118 | every send carries a non-empty response to an accepted client |
| JtagBridge.ProcessKeepsLifecycle | openocd_jtag_fast.py:103-118 | a processor pass keeps the lifecycle part of the invariant |
| JtagBridge.ProcessKeepsInv | openocd_jtag_fast.py:103-118 | a processor pass keeps the invariant |
| JtagBridge.NoSendAfterListenerExit | openocd_jtag_fast.py:96-118 | once the listener has exited, the processor sends nothing more |
| JtagBridge.ForwardedInOrder | openocd_jtag_fast.py:87-115 | the forwarded chunks are a prefix of the received ones, and the adapter's transfers after the setup are exactly the forwarded chunks |
| JtagBridge.FailedTransferEndsProcessor | openocd_jtag_fast.py:107-115 | a transfer that raises ends the processor thread: the chunk was dequeued and handed to the adapter, and nothing is sent |
| JtagBridge.SendOutcome | openocd_jtag_fast.py:117-118 | with a non-empty response and an open `_sock`: a send that raises ends the processor thread and records nothing as sent; otherwise exactly that response is sent to `_sock` and the thread goes on |
| JtagBridge.TerminationIsFinal | openocd_jtag_fast.py:96-105 | with `_terminate` set, both threads end and no further transfer happens; the flag stays set |
| JtagBridge.JtagServer.Open | openocd_jtag_fast.py:17-39 | out-of-range pins give the ValueError of the first bad pin with no adapter call; otherwise a valid server, after exactly the five setup calls |
| JtagBridge.JtagServer.constructor | openocd_jtag_fast.py:29-50 | the GPIO setup calls in order; not started, not terminated, empty queue, no `_sock`; the invariant holds |
| JtagBridge.JtagServer.StartServer | openocd_jtag_fast.py:52-59 | once terminated, RuntimeError and no change; if already started, the thread-start error; otherwise both threads run and the server itself is returned |
| JtagBridge.JtagServer.StopServer | openocd_jtag_fast.py:61-64 | sets `_terminate` and changes nothing else; the invariant holds |
| JtagBridge.JtagServer.Enter | openocd_jtag_fast.py:66-67 | `start_server`'s outcome, with None in place of the server |
| JtagBridge.JtagServer.Exit | openocd_jtag_fast.py:69-70 | `stop_server` |
| JtagBridge.JtagServer.ListenerIteration | openocd_jtag_fast.py:79-101 | one listener pass keeps the invariant, and its new state is `ListenerStep` |
| JtagBridge.JtagServer.ListenerPass | openocd_jtag_fast.py:79-101 | the loop body is the scan followed, under `_terminate`, by the shutdown and the thread's exit |
| JtagBridge.JtagServer.ScanReadable | openocd_jtag_fast.py:80-94 | the in-place `for` loop with `break` computes `Scan`, and the queued chunks are `Delivered` |
| JtagBridge.JtagServer.CloseAll | openocd_jtag_fast.py:96-101 | closes exactly the sockets in `read_list` and the server socket |
| JtagBridge.JtagServer.ProcessIteration | openocd_jtag_fast.py:105-118 | one processor pass keeps the invariant, and its new state is `ProcessStep` |
| JtagBridge.JtagServer.ProcessPass | openocd_jtag_fast.py:105-118 | the loop body: stop on `_terminate`, idle on an empty queue, else one transfer of the head chunk; a transfer that raises ends the thread, otherwise the reply is as `ReplyFor` decides, and a send that raises ends the thread |
| Fram.SplitAddress | i2c_fram.py:9-13 | the upper part lies in 0..7 and the lower part in 0..255, for every integer address |
| Fram.SplitArithmetic | i2c_fram.py:10-11 | the masks and shift compute `(a // 256) % 8` and `a % 256` |
| Fram.SplitRoundTrip | i2c_fram.py:9-13 | below 0x800, upper * 256 + lower is the address |
| Fram.SplitIgnoresHighBits | i2c_fram.py:10-11 | `a` and `a % 0x800` split alike |
| Fram.SplitRecovers | i2c_fram.py:9-13 | for any address, upper * 256 + lower is its low 11 bits |
| Fram.DeviceAddress | i2c_fram.py:19 | the bitwise OR of 0x50 and the upper part is their sum, within 0x50..0x57 |
| Fram.FramRead | i2c_fram.py:16-20 | one request to the device address, payload exactly [lower], read size as given |
| Fram.FramWrite | i2c_fram.py:23-27 | one request to the device address, payload [lower] followed by the data, one byte longer than the data, nothing read |
| Fram.ReadWriteAgree | i2c_fram.py:16-27 | reading and writing one address use the same device and the same first byte |
| Fram.ReadSelects | i2c_fram.py:16-20 | the part decodes a read request back to the address's low 11 bits |
| Fram.WriteSelects | i2c_fram.py:23-27 | the part decodes a write request back to the address's low 11 bits, and the data follows unchanged |
| BusExpander.IterateClosedForm | i2c_bus_expander_pcal6416a_example.py:19-27 | after n passes the ticker is the triangle wave 0..7..1 at n, the direction its slope, both in range |
| BusExpander.TickerPeriodic | i2c_bus_expander_pcal6416a_example.py:19-27 | the ticker sequence has period 14 |
| BusExpander.StepByOne | i2c_bus_expander_pcal6416a_example.py:27 | from an in-range state a pass moves the ticker by exactly one and stays in range |
| BusExpander.TurnsOnlyAtEnds | i2c_bus_expander_pcal6416a_example.py:22-25 | the direction becomes -1 at 7 and 1 at 0, and is kept otherwise |
| BusExpander.Next | i2c_bus_expander_pcal6416a_example.py:22-27 | no contract of its own; stated by `BusExpander.StepByOne` and `BusExpander.TurnsOnlyAtEnds` |
| BusExpander.XorOneBit | i2c_bus_expander_pcal6416a_example.py:29 | bit i of `0xFF ^ (1 << t)` is set exactly for i < 8 other than t, or for i == t >= 8 |
| BusExpander.XorOneBitRange | i2c_bus_expander_pcal6416a_example.py:29 | `0xFF ^ (1 << t)` fits a byte exactly when t < 8 |
| BusExpander.PatternOneZeroBit | i2c_bus_expander_pcal6416a_example.py:29 | the output byte exists exactly for tickers 0..7, and then it has exactly one zero bit, at the ticker |
| BusExpander.OutputFrameShape | i2c_bus_expander_pcal6416a_example.py:29 | each frame is two bytes, starting with register 0x02 |
| BusExpander.Pattern | i2c_bus_expander_pcal6416a_example.py:29 | no contract of its own; stated by `BusExpander.PatternOneZeroBit` |
| BusExpander.OutputFrame | i2c_bus_expander_pcal6416a_example.py:29 | no contract of its own; stated by `BusExpander.OutputFrameShape` |
| BusExpander.PassFacts | i2c_bus_expander_pcal6416a_example.py:21-29 | one more pass advances the loop variables and appends exactly the write of their frame |
| BusExpander.LedBouncer.constructor | i2c_bus_expander_pcal6416a_example.py:17-20 | the configuration write [0x06, 0x00] to 0x21, then ticker 0 and direction 1 |
| BusExpander.LedBouncer.Advance | i2c_bus_expander_pcal6416a_example.py:22-27 | the in-place update is one `Next` step |
| BusExpander.LedBouncer.Step | i2c_bus_expander_pcal6416a_example.py:21-29 | one pass keeps the ticker in 0..7 and appends the write [0x02, pattern] to 0x21 |
| BusExpander.LedBouncer.Run | i2c_bus_expander_pcal6416a_example.py:21-29 | after n passes the ticker is the triangle wave at the pass count, and every write so far is the trace |
| SpiFlash.ShiftOrValue | spi_flash_example.py:32 | msb shifted left by 8 and ORed with lsb is msb * 256 + lsb, within 0..0xFFFF |
| SpiFlash.ShiftOr | spi_flash_example.py:32 | no contract of its own; stated by `SpiFlash.ShiftOrValue` |
| SpiFlash.ManualDecodeBytes | spi_flash_example.py:26-32 | byte 0 never matters, the manufacturer is byte 1, and the JEDEC ID is byte2 * 256 + byte3 |
| SpiFlash.ManualDecode | spi_flash_example.py:26-32 | no contract of its own; stated by `SpiFlash.ManualDecodeBytes` and `SpiFlash.DecodersAgree` |
| SpiFlash.BigEndian | spi_flash_example.py:80 | an n-byte big-endian value is below 2^(8n) |
| SpiFlash.DecodersAgree | spi_flash_example.py:80 | `>xBH` succeeds exactly on 4-byte replies, indexing exactly on replies of 4 or more, and on 4 bytes both give the same pair |
| SpiFlash.UnpackXBH | spi_flash_example.py:80 | no contract of its own; stated by `SpiFlash.DecodersAgree` |
| SpiFlash.CheckIdsExactly | spi_flash_example.py:38-42 | the checks pass exactly for (0xEF, 0x4018), and the manufacturer is checked first |
| SpiFlash.CheckIds | spi_flash_example.py:38-42 | no contract of its own; stated by `SpiFlash.CheckIdsExactly` |
| SpiFlash.PadCommand | spi_flash_example.py:54-57 | the command, then zeros up to `read_size`, never shorter than the command |
| SpiFlash.PaddedCommandIsExplicit | spi_flash_example.py:57 | 0x9F padded to 4 bytes is 9F 00 00 00, the explicit command of line 23 |
| SpiFlash.ScriptPasses | spi_flash_example.py:23-90 | the script completes exactly when all three reads returned the same 4 bytes xx EF 40 18 |
| SpiFlash.Script | spi_flash_example.py:23-90 | no contract of its own; stated by `SpiFlash.ScriptPasses` |

## Left out

- Threads and their interleaving. Each thread iteration is one atomic method call, so any interleaving of whole iterations is covered; finer-grained races between the threads are not.
- The `select` and queue timeouts, and every `time.sleep`. They only delay.
- Real socket I/O:
  - `bind` and `listen`, and their failures, are not modelled;
  - sockets are numbers, with the server socket 0 and clients 1, 2, ... in accept order;
  - `recv` is a function of the socket, and its 1500-byte bound is not enforced;
  - a `send` is one complete write: partial sends are not modelled;
  - a send on a closed `_sock` ends the processor thread, as the OSError does;
  - whether a send on the open `_sock` raises (a reset peer, or a full buffer on the non-blocking socket) is a parameter of each processor pass; when it raises, the thread ends as with the closed socket;
  - an exception from `accept` or `recv` (a connection reset, say) would end the listener thread; the model's `recv` always returns data or an empty answer, so this exit is not modelled.
- The `host` and `port` arguments. They reach only `bind`.
- The polyglot_turtle library (`gpio_*`, `openocd_jtag`, `i2c_exchange`, `spi_exchange`), which is not part of this model:
  - GPIO and transfer calls are recorded in a log;
  - a transfer's answer is a function of that log;
  - I2C and SPI exchanges are represented by the request made or the reply received;
  - a transfer that raises (CommandExecutionFailedException, CommandExecutionTimeoutException) is modelled and ends the processor thread, but the GPIO calls always succeed: an exception part-way through the constructor's setup, which would leave some pins configured and no server, is not modelled.
- SpiFlash.PadCommand: what the adapter sends when `read_size` is shorter than the command (here: the command unchanged) is an assumption, since the padding is done by the adapter's firmware; the script only uses `read_size` 4 with a one-byte command.
- The meaning of the bit-bang bytes. They are forwarded opaquely.
- `stop_server`'s `join` calls and Python's thread-start errors:
  - the joins are represented by the threads' next iterations, which see `_terminate`;
  - a second `start_server` is the error `ThreadsAlreadyStarted`;
  - `join` on an unstarted thread is not modelled.
- The `with` statement itself. `Enter` and `Exit` model what `__enter__` and `__exit__` do; that `__exit__` runs on every way out of the block is Python's guarantee, not code here.
- The `print` calls and the `__main__` blocks' construction of the adapter.
- The FRAM and SPI examples' own `__main__` call sequences, beyond the SPI script's checks (`Script`).
- pwm_servo.py and adc_example.py (floating-point arithmetic), and dac_example.py, gpio_blinky_example.py, i2c_scan_example.py and avr_program.py (hardware calls with no logic of their own). They are not part of this model.
- BusExpander.LedBouncer.Run: models the first `n` passes of the endless `while 1` loop; non-termination itself is not stated.
