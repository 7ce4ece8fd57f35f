# Multicast audio output: pacer and session model

This project models the pacing core of the multicast output plugin of the
Music Player Daemon fork by ianmacs, in Dafny.

- `sound_sender.dfy` (module `SoundSender`) models `SoundSender::Pacer`. It
  holds three integer fields: the period, the due time slot and the time of
  the last trigger. Its phase (READY, WAITING, OVERDUE, ABORTED) comes from
  the time elapsed since the last trigger. `GetState`, `GetSleeptime`,
  `GetPeriod` and `GetDuetimeslot` are functions over the fields. `Trigger`
  and the constructor are methods that assign the fields. The pure functions
  `StateAt`, `SleeptimeAt` and `TriggeredAt` define what these members
  compute, and the lemmas about the state machine are stated over them.
- `multicast_output_plugin.dfy` (module `MulticastOutputPlugin`) models the
  class `MulticastOutput`. `Open` checks the audio format against fixed
  constants (S16, 2 channels, 48000 Hz) and then allocates a pacer with
  period 5333333 ns and slot 2666666 ns. `Play` only counts bytes towards a
  1024-byte frame. When a frame completes, it reports the bytes that filled
  the frame and triggers the pacer once. `Delay` is the pacer's sleep time in
  whole milliseconds. `Cancel` does nothing. `Close` drops the pacer.
  `PlayResult` and `Trace` describe one `Play` call and a sequence of calls
  as values, and ghost counters on the class (`played`, `frames`) carry
  byte conservation as part of the object invariant.

The wall clock is never read. Every query takes the current time `now` in
nanoseconds as a parameter. The C++ pacer reads the realtime clock, which can
go backwards, so no lemma assumes `now` is at least the last trigger time
unless it says so.

The model follows the code; in particular:
- `Cancel` is empty. It does not discard the partial frame or reset the pacer.
- `trigger` returns nothing. No audible time, packet, sequence number or
  transmission gap exists in this code.
- The clock is `CLOCK_REALTIME`, not a monotonic clock.
- `Play` copies no data: the chunk is unused, so the model passes only its size.
- `Play` dereferences the pacer only when a frame completes. So the model
  requires a pacer only in that case.
- `Open` leaves the pacer untouched when it rejects a format. The byte count
  survives `Open` and `Close` as well.

## Model

| member | source | states |
|---|---|---|
| `SoundSender.StateAt` | src/output/plugins/SoundSender.hh:52-61 | READY exactly when never triggered; otherwise WAITING exactly below one period of elapsed time, OVERDUE exactly on the closed window [period, period + slot], ABORTED exactly beyond both |
| `SoundSender.Pacer.GetState` | src/output/plugins/SoundSender.hh:52-61 | the state of the pacer's fields at `now`: READY exactly when never triggered, OVERDUE exactly on the closed tolerance window (further properties: StateAt, StateBoundaries, StateMonotone) |
| `SoundSender.Pacer.GetSleeptime` | src/output/plugins/SoundSender.hh:62-71 | never negative; positive exactly when the pacer is WAITING, and then last trigger time + period - now |
| `SoundSender.Pacer.GetDuetimeslot` | src/output/plugins/SoundSender.hh:72-74 | the slot field; the constructor sets it and Trigger keeps it (Pacer.Trigger) |
| `SoundSender.Pacer.GetPeriod` | src/output/plugins/SoundSender.hh:75-77 | the period field; the constructor sets it and Trigger keeps it (Pacer.Trigger) |
| `SoundSender.TriggeredAt` | src/output/plugins/SoundSender.hh:78-87 | in WAITING or OVERDUE the new trigger time is last + period and, unless the call falls exactly on the due time, differs from now (no re-anchoring); in READY or ABORTED it is now |
| `SoundSender.SleeptimeAt` | src/output/plugins/SoundSender.hh:62-71 | sleep time is never negative; it is positive exactly in WAITING, where it equals last + period - now, and it is at most one period when the clock has not gone back |
| `SoundSender.InitialSlot` | src/output/plugins/SoundSender.hh:115-117 | a non-zero requested slot is kept; slot 0 becomes min(1 ms, ns/2): exactly ns/2 for 0 <= ns < 2 ms, exactly 1 ms from 2 ms on, and never above 1 ms |
| `SoundSender.Pacer.constructor` | src/output/plugins/SoundSender.hh:88-90 | period is ns (default 5333333), slot is chosen as above (default dt 0), last trigger time is 0, so the new pacer is READY at every time |
| `SoundSender.Pacer.Trigger` | src/output/plugins/SoundSender.hh:78-87 | in WAITING or OVERDUE the last trigger time grows by exactly one period; in READY or ABORTED it becomes now; period and slot are unchanged |
| `SoundSender.StateBoundaries` | src/output/plugins/SoundSender.hh:56-60 | elapsed < period is WAITING; elapsed == period and elapsed == period + slot are OVERDUE; beyond period + slot is ABORTED; OVERDUE exactly on the closed window |
| `SoundSender.StateMonotone` | src/output/plugins/SoundSender.hh:55-60 | once triggered, as time advances the state only moves forward through WAITING, OVERDUE, ABORTED |
| `SoundSender.ResyncSuppressesCatchUp` | src/output/plugins/SoundSender.hh:84-85 | after a trigger in READY or ABORTED (period > 0, now != 0) the pacer is WAITING with a full period of sleep: no catch-up triggers |
| `SoundSender.OnTimeTriggerWaits` | src/output/plugins/SoundSender.hh:80-83 | after a trigger in OVERDUE with slot < period the pacer is WAITING again until the next due time |
| `SoundSender.NoDrift` | src/output/plugins/SoundSender.hh:78-83 | n triggers made at arbitrary times, each while the pacer is WAITING or OVERDUE (early, or late within the tolerance window), leave the last trigger time at exactly t0 + n * period |
| `SoundSender.LapsedTriggerReanchors` | src/output/plugins/SoundSender.hh:84-85 | after k on-schedule triggers, one trigger that finds the pacer ABORTED moves the schedule to its own time, which lies beyond the window of the (k+1)-th due time |
| `SoundSender.DefaultConstants` | src/output/plugins/SoundSender.hh:89 | the default period is 5333333 ns and its default slot is 1000000 ns |
| `MulticastOutputPlugin.Supported` | src/output/plugins/MulticastOutputPlugin.cxx:59-64 | accepts exactly one format, AudioFormat(S16, 2, 48000) |
| `MulticastOutputPlugin.PlayResult` | src/output/plugins/MulticastOutputPlugin.cxx:84-95 | below the frame size the whole chunk is taken and counted; otherwise the count resets, the frame is triggered, and consumed + old count == 1024; consumed <= size, and >= 1 when size > 0; the count stays below 1024 |
| `MulticastOutputPlugin.Conservation` | src/output/plugins/MulticastOutputPlugin.cxx:84-95 | over any sequence of Play calls, buffered bytes before plus bytes reported consumed equal 1024 * frames triggered plus bytes buffered after |
| `MulticastOutputPlugin.DelayOf` | src/output/plugins/MulticastOutputPlugin.cxx:78-79 | whole milliseconds of the sleep time, reduced to a 32-bit unsigned; zero below 1 ms |
| `MulticastOutputPlugin.MulticastOutput.constructor` | src/output/plugins/MulticastOutputPlugin.cxx:46-50 | no pacer, no buffered bytes; the invariant holds |
| `MulticastOutputPlugin.MulticastOutput.Open` | src/output/plugins/MulticastOutputPlugin.cxx:58-71 | succeeds exactly for S16, 2 channels, 48000 Hz; then a fresh READY pacer with period 5333333 and slot 2666666; on failure the pacer is unchanged |
| `MulticastOutputPlugin.MulticastOutput.Close` | src/output/plugins/MulticastOutputPlugin.cxx:73-76 | the pacer becomes null; the byte count and invariant are kept |
| `MulticastOutputPlugin.MulticastOutput.Delay` | src/output/plugins/MulticastOutputPlugin.cxx:78-80 | needs a pacer; 0 unless the pacer is WAITING; whenever the millisecond count fits 32 bits (also after the clock has gone back) it is the sleep time in truncated milliseconds; when the clock has not gone back it is at most one period |
| `MulticastOutputPlugin.MulticastOutput.Play` | src/output/plugins/MulticastOutputPlugin.cxx:82-96 | result and new count are those of PlayResult; below the threshold the pacer is untouched, at the threshold it is triggered exactly once; the count stays below 1024 and conservation is kept |
| `MulticastOutputPlugin.MulticastOutput.Cancel` | src/output/plugins/MulticastOutputPlugin.cxx:98-99 | changes nothing |
| `MulticastOutputPlugin.PlayAll` | src/output/plugins/MulticastOutputPlugin.cxx:82-96 | successive Play calls, each at its own time, report exactly the consumed values of Trace, end with its final count and add its bytes and triggers to the counters; the pacer keeps period and slot, its last trigger time is the Schedule of the times of the frame-completing calls, and is unchanged when no frame completed |
| `MulticastOutputPlugin.OpenConstants` | src/output/plugins/MulticastOutputPlugin.cxx:30-35 | the frame is 1024 bytes; the period is 5333333 ns; the slot passed explicitly is 2666666, so the 1 ms default is not applied |

## Left out

- `Clock::get_nsec` (SoundSender.hh:101-109) reads the operating system clock. The model passes the time as the `now` parameter instead. The C++ `get_sleeptime` reads the clock twice (SoundSender.hh:55 via `get_state`, and 69), and so does `trigger` (SoundSender.hh:55 via `get_state`, and 85); `Pacer.GetSleeptime` and `Pacer.Trigger` use one `now` for both reads, so a clock tick between the two reads is not modelled.
- `operator++` on `Pacer::State` (SoundSender.hh:121-123) can produce an out-of-range enum value and has no behaviour worth modelling.
- `MulticastOutput::Create`, `Initialize`, the `AudioOutputWrapper` and the plugin function table (MulticastOutputPlugin.cxx:52-56, 102-133) are framework registration. `AudioOutput::Configure`, which they call, is not part of this model.
- `Pacer` field quantities are mathematical integers: 64-bit overflow of nanosecond sums such as `last_trigger_time + period` is not modelled.
- `MulticastOutput.Play`: the `size_t` overflow of `size + incomplete_data_bytes` is excluded by a precondition, not modelled as wrap-around.
- The `Error &` out-parameters of `Open` and `Play` are never set by this code and are not modelled.
- `Open` overwrites a pacer that is already allocated without deleting it. The model reassigns the reference; memory release is not modelled.
- src/command/QueueCommands.cxx, src/playlist.h and src/ConfigData.cxx are not part of this model: they hold command dispatch, declarations and configuration parsing.
