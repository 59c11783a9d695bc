# myo_raw_osc in Dafny

A model of the module-level state machine of `myo_raw_osc.py`, the script
that receives EMG and IMU samples from a Myo armband driver, keeps bounded
histories of them, converts the IMU quaternion into yaw, roll and pitch, and
optionally republishes every sample as an OSC message over UDP.

The model has six modules:

- `Wrappers` (`wrappers.dfy`): an `Option` type.
- `Sensor` (`sensor.dfy`): the vector, quaternion and Euler-angle values
  that the IMU handlers receive and compute.
- `History` (`history.dfy`): the two list-update policies as functions on
  sequences, and the reference windows they keep. `NewestFirst` is the last
  `maxHist` samples, newest first. `OldestFirst` is the first `maxHist`
  samples, oldest first.
- `Messages` (`messages.dfy`): an OSC message as an address and an ordered
  payload, the message object that the handlers fill in place, the two
  payload layouts, and decoders that read them back.
- `Options` (`options.dfy`): the option loop over the (flag, argument)
  pairs that getopt returns, as a method with a loop, specified by a fold
  function.
- `Pipeline` (`pipeline.dfy`): the script's variables as the class
  `Session`, with one method per handler; the device driver's handler lists
  as the class `MyoRaw`; the handler registration; and the dispatch of one
  sample. `Session.Snapshot()` gives the variables as a `State` value. Each
  handler is also a step function on `State`. `RunEmg` and `RunImu` run a
  handler list in order and stop once a handler has ended the process.
  Every handler method's `ensures` ties the new `Snapshot()` to the step
  function applied to the old one. Ghost logs of every sample pushed are tied to the
  lists by the predicate `Windows` on `State`, which `Session.Valid()`
  applies to the fields and which each history step preserves.

Two details of the code differ from what its comments suggest. The model
follows the code:

- The comment at myo_raw_osc.py:96 says "push to beginning", but lines
  97-101 append and then pop from the same end once `nImu` exceeds
  `maxHist`. The net effect is that the IMU lists keep the
  *first* `maxHist` samples, oldest first, and every later call leaves them
  unchanged. `History.AppendBackNetEffect` and the invariant
  `histOrientation == OldestFirst(orientationLog, maxHist)` in
  `Pipeline.Windows` state this. Only the EMG lists keep the newest
  samples, newest first.
- Line 94 declares `global histAccm`, a misspelling. It has no effect,
  because `histAcc` is only mutated and never rebound. The model updates
  `histAcc`.

Sending (`-s`) is on when its integer value is non-zero. This is Python's
truth test on `send`.

## Model

| member | source | states |
|---|---|---|
| `History.NewestFirst` | myo_raw_osc.py:83-91 | the window the EMG lists keep has `min(n, maxHist)` entries; entry `i` is the `i`-th most recent sample |
| `History.OldestFirst` | myo_raw_osc.py:93-101 | the window the IMU lists keep has `min(n, maxHist)` entries; entry `i` is the `i`-th sample received |
| `History.InsertFrontCapped` | myo_raw_osc.py:87-91 | an EMG list update grows the list by one, or keeps its length once the counter exceeds `maxHist` |
| `History.InsertFrontOrder` | myo_raw_osc.py:87-91 | after an EMG list update the new sample is at index 0, the old entries follow in their old order, and an overflowing call loses only the tail entry |
| `History.AppendBackCapped` | myo_raw_osc.py:97-101 | an IMU list update grows the list by one, or keeps its length once the counter exceeds `maxHist` |
| `History.AppendBackNetEffect` | myo_raw_osc.py:97-101 | an IMU list update with the counter above `maxHist` returns the list unchanged; otherwise it appends the sample at the end |
| `History.InsertFrontKeepsWindow` | myo_raw_osc.py:83-91 | an EMG update of the window of `n` samples, with the counter at `n + 1`, gives the window of the `n + 1` samples, so the lists always hold the last `maxHist` samples, newest first |
| `History.AppendBackKeepsPrefix` | myo_raw_osc.py:93-101 | an IMU update of the window of `n` samples, with the counter at `n + 1`, gives the window of the `n + 1` samples, so the lists always hold the first `maxHist` samples, oldest first |
| `Messages.OscMessage.SetAddress` | myo_raw_osc.py:107 | setting the address leaves the payload as it was |
| `Messages.OscMessage.Append` | myo_raw_osc.py:108 | appending a list adds its elements at the end of the payload, in order |
| `Messages.IntsRoundTrip` | myo_raw_osc.py:108 | an integer payload reads back as the integers it was built from |
| `Messages.FloatsRoundTrip` | myo_raw_osc.py:118-119 | a real payload reads back as the reals it was built from |
| `Messages.EmgMessage` | myo_raw_osc.py:104-109 | the EMG message has address `/myo/emg` and one payload value per EMG reading |
| `Messages.EmgMessageRoundTrip` | myo_raw_osc.py:106-108 | the EMG payload reads back as exactly the readings, in order |
| `Messages.ImuMessage` | myo_raw_osc.py:114-120 | the IMU message has address `/myo/imu` and one payload value per orientation value plus three for the acceleration |
| `Messages.ImuMessageRoundTrip` | myo_raw_osc.py:116-119 | the IMU payload splits back into exactly the orientation values followed by the three acceleration components |
| `Options.Apply` | myo_raw_osc.py:38-47 | the option loop as a fold over the pairs; it ends with `BadInt` only on a `-s`/`-p` pair of the input whose argument is not an integer, and with `Usage` only when some pair is `-h` |
| `Options.ParseOptions` | myo_raw_osc.py:38-47 | the option loop over the settings variables gives the outcome of the fold `Apply` from the defaults |
| `Options.DefaultsWithoutOptions` | myo_raw_osc.py:24-26 | with no options the settings are send 0, ip `127.0.0.1` and port 57120 |
| `Options.CompletesIff` | myo_raw_osc.py:38-47 | the loop runs to its end exactly when no flag is `-h` and every `-s`/`-p` argument is an integer |
| `Options.LastOccurrenceWins` | myo_raw_osc.py:38-47 | when the loop completes, `send`, `ip` and `port` each hold the value of the last pair naming them, or their starting value; no flag changes another flag's setting |
| `Options.HelpStops` | myo_raw_osc.py:39-41 | options after `-h` have no effect, and `-h` after a run of good options gives the usage exit |
| `Pipeline.Initial` | myo_raw_osc.py:24-57 | the start state holds the configured settings and bound, zero counters, nothing sent, no client and no halt |
| `Pipeline.OscSend` | myo_raw_osc.py:104-123 | `client.send` in its `try`: the message is added to those delivered exactly when a client exists and the send succeeds, and then the process goes on; no other variable changes |
| `Pipeline.EmgHistStep` | myo_raw_osc.py:83-91 | `proc_emg_hist` raises `nEmg` by one, keeps the two EMG lists of equal length, and changes no other variable |
| `Pipeline.ImuHistStep` | myo_raw_osc.py:93-101 | `proc_imu_hist` raises `nImu` by one; below the bound it appends the current orientation and the acceleration, at or above it the lists stay as they are; no other variable changes |
| `Pipeline.EmgStep` | myo_raw_osc.py:70-112 | one EMG handler: only `proc_emg_hist` touches the EMG counter and lists, only `proc_emg_osc` sends or ends the process, and none touches the IMU variables, the client or the settings |
| `Pipeline.ImuStep` | myo_raw_osc.py:63-123 | one IMU handler: `proc_imu_transform` changes only the orientation, only `proc_imu_hist` touches the IMU counter and lists, only `proc_imu_osc` sends or ends the process, and none touches the EMG variables, the client or the settings |
| `Pipeline.RunEmg` | myo_raw_osc.py:145 | the handlers of one EMG sample in order: nothing runs after the process has ended, the messages sent only grow, and a run that does not end sends at most one message per handler |
| `Pipeline.RunImu` | myo_raw_osc.py:145 | the handlers of one IMU sample in order, with the same three guarantees as for EMG |
| `Pipeline.WiredEmg` | myo_raw_osc.py:130-137 | the main process registers three EMG handlers with sending on and two with it off |
| `Pipeline.WiredImu` | myo_raw_osc.py:129-138 | the main process registers four IMU handlers with sending on and three with it off |
| `Pipeline.WiredOrder` | myo_raw_osc.py:128-138 | the orientation transform is the first IMU handler and appears only once; the two OSC handlers are registered exactly when `send` is non-zero |
| `Pipeline.EmgRunKeepsImu` | myo_raw_osc.py:70-112 | any EMG handler list leaves the orientation, the IMU counter and lists, the client and the settings unchanged |
| `Pipeline.ImuRunKeepsEmg` | myo_raw_osc.py:63-123 | any IMU handler list leaves the EMG counter and lists, the client and the settings unchanged |
| `Pipeline.WiredEmgDispatch` | myo_raw_osc.py:83-112 | one EMG sample through the registered handlers raises `nEmg` by exactly one and puts the sample in front of both lists; with sending on it sends the `/myo/emg` message, or ends the process reporting the configured ip and port; with sending off it sends nothing and cannot end the process |
| `Pipeline.WiredImuDispatch` | myo_raw_osc.py:63-123 | one IMU sample through the registered handlers sets the orientation from this quaternion alone and raises `nImu` by exactly one; that same orientation is what the history records and what the six-value `/myo/imu` message carries, followed by the acceleration; on a send failure the process ends reporting the configured ip and port |
| `Pipeline.WindowsBounds` | myo_raw_osc.py:83-101 | under the history invariant `len(histEmg) == len(histMoving) == min(nEmg, maxHist)`, `len(histOrientation) == len(histAcc) == min(nImu, maxHist)`, the latest EMG sample is at index 0 of the EMG lists and the first IMU sample at index 0 of the IMU lists |
| `Pipeline.InitialWindows` | myo_raw_osc.py:27-57 | the empty lists and zero counters satisfy the history invariant for empty logs |
| `Pipeline.EmgHistKeepsWindows` | myo_raw_osc.py:83-91 | `proc_emg_hist` turns the lists of the last `maxHist` samples, newest first, into those of the samples including the new one |
| `Pipeline.ImuHistKeepsWindows` | myo_raw_osc.py:93-101 | `proc_imu_hist` turns the lists of the first `maxHist` samples, oldest first, into those of the samples including the current orientation and the new acceleration |
| `Pipeline.EmgHistStepWindow` | myo_raw_osc.py:83-91 | one `proc_emg_hist` call on the windows of a log gives the windows of the log with the new sample |
| `Pipeline.PushEmg` | myo_raw_osc.py:83-91 | `proc_emg_hist` called once per sample raises `nEmg` by the number of samples and keeps the bound |
| `Pipeline.PushEmgFromStart` | myo_raw_osc.py:83-91 | from the start state, any sequence of `proc_emg_hist` calls leaves both EMG lists equal to the last `maxHist` samples, newest first |
| `Pipeline.EmgKeepsLast100Of150` | myo_raw_osc.py:27-91 | with the bound of 100, 150 EMG samples pushed from the start leave `nEmg == 150` and lists of exactly 100 entries, entry `i` being sample `149 - i` |
| `Pipeline.MyoRaw.AddEmgHandler` | myo_raw_osc.py:130-137 | registering an EMG handler appends it to the EMG list and leaves the IMU list alone |
| `Pipeline.MyoRaw.AddImuHandler` | myo_raw_osc.py:129-138 | registering an IMU handler appends it to the IMU list and leaves the EMG list alone |
| `Pipeline.Session.constructor` | myo_raw_osc.py:24-57 | the script starts with empty history lists, zero counters, no orientation and no client |
| `Pipeline.Session.ImuTransform` | myo_raw_osc.py:63-66 | `proc_imu_transform` overwrites the orientation with the conversion of the quaternion; nothing else changes |
| `Pipeline.Session.EmgHist` | myo_raw_osc.py:83-91 | `proc_emg_hist` in place: the counter and both lists change as the EMG history step says, the sample is logged, and the lists stay the last `maxHist` samples, newest first |
| `Pipeline.Session.ImuHist` | myo_raw_osc.py:93-101 | `proc_imu_hist` in place: the counter and both lists change as the IMU history step says, the current orientation and the acceleration are logged, and the lists stay the first `maxHist` samples, oldest first |
| `Pipeline.Session.Send` | myo_raw_osc.py:109-112 | a delivered message is added to the messages sent; a failed send ends the process with the configured ip and port reported |
| `Pipeline.Session.EmgOsc` | myo_raw_osc.py:104-112 | `proc_emg_osc` sends the EMG message of the sample |
| `Pipeline.Session.ImuOsc` | myo_raw_osc.py:114-123 | `proc_imu_osc` sends the current orientation followed by the acceleration |
| `Pipeline.Session.DispatchEmg` | myo_raw_osc.py:145 | one EMG sample is given to the registered handlers in order, stopping at a handler that ends the process |
| `Pipeline.Session.DispatchImu` | myo_raw_osc.py:145 | one IMU sample is given to the registered handlers in order, stopping at a handler that ends the process |
| `Pipeline.Session.RegisterHandlers` | myo_raw_osc.py:128-138 | the handler lists become `[proc_emg_verb, proc_emg_hist]` and `[proc_imu_transform, proc_imu_verb, proc_imu_hist]`; when `send` is non-zero a client for the configured endpoint is connected and each list gets its OSC handler, unless the connect fails, which ends the process with those handlers unregistered |
| `Pipeline.Launch` | myo_raw_osc.py:24-138 | start-up runs the option loop; when it completes, the script's variables, the device object and the registrations follow, with a history bound of 100; a failed connect leaves the process ended, with no client and no OSC handlers |

## Left out

- The Myo device driver (`MyoRaw.connect`, `run`, `disconnect` and the decoding of frames) lives in a file that is not part of this model. Its dispatch is assumed to call the registered handlers of a stream in registration order, once per sample. `Session.DispatchEmg` and `Session.DispatchImu` model that assumption.
- The OSC library and its UDP transport are foreign code. A message is an address and a list of values. Whether `client.connect` succeeds is the input `connected`, and whether `client.send` succeeds is the input `delivered`, one per sample. The messages the client delivered are recorded in order; a failed send or connect is recorded as the halt that ends the process. The socket error of a failed connect is not modelled beyond that halt.
- `transforms3d.taitbryan.quat2euler` does floating-point trigonometry in a foreign library. It is the parameter `quat2euler`, a total function from quaternion to Euler angles. Malformed quaternions are therefore not modelled.
- Floating point is not modelled. IMU components and angles are reals and are only copied, never computed.
- `getopt.getopt` and its exit with status 2 on unknown flags happen before the loop. The fold starts from its output. `int()` is the parameter `parseInt`; its `ValueError` is the outcome `BadInt`. `sys.exit` codes and the usage text are not modelled; `Usage` is the `-h` exit.
- The verbose handlers `proc_emg_verb` and `proc_imu_verb` only print. They are registered and dispatched, but their step changes nothing.
- The angular rate (`gyro`) is passed to the IMU handler methods. No handler reads it, so the step functions do not take it.
- The blocking `try`/`finally` run loop (myo_raw_osc.py:143-148) is left out. It is process lifecycle and device I/O.
- The commented-out arm and pose handlers (myo_raw_osc.py:140-141) are left out.
- An OSC handler that runs when no client was created would raise a `NameError` in the source. The model halts with `NoClient`. The registration never lets this happen.
