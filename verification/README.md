# ESP32 XP tracker: the tracker state machine and its throttled send

This project models the core of a RuneLite plugin that shows skill-training progress on an
ESP32 display. The plugin listens to three host events:

- **Stat changes.** Each event marks its skill as the one being trained. The first event for
  a skill records the skill's XP baseline for the session.
- **Game ticks.** On a tick the plugin picks a skill to report and builds its record: XP,
  level, rates, XP gained since the baseline and, in one variant, a progress percentage. At
  most one record per second is sent to the device.
- **The login screen and shutdown.** These forget part of the state.

The repository has two near-identical copies of this plugin, and both are modelled:

- `PushPlugin` covers `src/main/java/com/esp32tracker/ESP32TrackerPlugin.java`, the variant
  with the progress bar.
- `TrimmedPlugin` covers `src/main/java/com/esp32tracker/xptracker/ESP32TrackerPlugin.java`.

Each handler is a pure function of the session state. The clock reading, the client's
readings, the XP tracker service's rates and the configuration are passed in as parameters.
A tick returns the record it would POST instead of sending it.

Modules:

- `Optional` holds the nullable skill references as an `Option`.
- `JavaInt` holds Java's 32-bit `int` and 64-bit `long` subtraction with wrap-around.
- `RuneLite` holds the host's `Skill` and `GameState` enumerations, the client and XP-tracker
  readings, and the properties the code relies on from `Experience.getXpForLevel`.
- `TrackerConfig` holds the device address, the per-skill ignore flags and the ignore switch.
  Both files have the same switch (lines 120-174 and 130-159), so it is defined once.
- `Session` holds the five state fields, which both files declare with the same initial
  values. It also holds the selection of the skill to report, the throttle test and the state
  invariant.
- `PushPlugin` and `TrimmedPlugin` hold the handlers of their source files.
- `Variants` proves that the two files agree on stat events, game-state changes and ticks. They
  differ only in what a shutdown forgets and in the progress field.
- `Trace` drives either variant with a sequence of events. It proves the properties of whole
  sessions: the state stays valid, sends are at least 1000 ms apart, a baseline is written
  once, and ignored skills and OVERALL are never reported.

What the code does, in a few points the model makes explicit:

- Every stat event for a tracked skill counts as activity, even one that repeats the previous
  XP or only changes the boosted level.
- The trimmed variant's settings interface declares `serverPort` and no `esp32IpAddress`, but
  its plugin reads `esp32IpAddress()`. The model gives both variants one settings record
  holding the device address, as the plugin code reads it.
- Building the HTTP request can fail before anything is sent: OkHttp rejects an address it
  cannot turn into a URL (a space in the address, a port above 65535). The send time has already been
  recorded by then, and the pending flag has not yet been cleared. The model takes OkHttp's
  URL check as an input, `urlParses`, and models that tick as recording the time and sending
  nothing.

## Model

| member | source | states |
|---|---|---|
| `Session.InitialValid` | src/main/java/com/esp32tracker/ESP32TrackerPlugin.java:51-58 | the freshly constructed plugin satisfies the state invariant and has nothing to report |
| `Session.ValidSelection` | src/main/java/com/esp32tracker/ESP32TrackerPlugin.java:185-192 | in a reachable state a tick finds no skill exactly when no update is pending and there is no last skill, and never selects OVERALL |
| `Session.SkillToUpdate` | src/main/java/com/esp32tracker/ESP32TrackerPlugin.java:187 | the tick reports one of the two remembered skills: the pending skill while an update is pending, otherwise the last skill (the same selection is at line 113 of the trimmed variant) |
| `Session.DueForUpdate` | src/main/java/com/esp32tracker/ESP32TrackerPlugin.java:196 | the wrapped `long` throttle test; for non-negative clock readings it passes exactly when 1000 ms have passed since the last send, and a clock that went backwards never passes (line 120 of the trimmed variant is the same test) |
| `TrackerConfig.UpdateUrl` | src/main/java/com/esp32tracker/ESP32TrackerPlugin.java:257 | the update URL is `http://`, then the device address unchanged, then `/update` (the trimmed variant builds the same string at line 185) |
| `JavaInt.Sub64` | src/main/java/com/esp32tracker/ESP32TrackerPlugin.java:196 | `long` subtraction: congruent to the exact difference modulo 2^64, and equal to it for non-negative operands |
| `JavaInt.Sub32` | src/main/java/com/esp32tracker/ESP32TrackerPlugin.java:231 | `int` subtraction: congruent to the exact difference modulo 2^32, equal to it for non-negative operands, 0 for equal operands |
| `TrackerConfig.IsSkillIgnored` | src/main/java/com/esp32tracker/ESP32TrackerPlugin.java:120-174 | a skill listed in the switch is ignored exactly when its own flag is set; an unlisted skill is never ignored |
| `TrackerConfig.OnlyOverallUnflagged` | src/main/java/com/esp32tracker/ESP32TrackerPlugin.java:172-173 | OVERALL is the only skill that falls to the switch's default |
| `TrackerConfig.DefaultConfigIgnoresNothing` | src/main/java/com/esp32tracker/ESP32TrackerConfig.java:17-243 | with the default settings the address is empty and no skill is ignored |
| `PushPlugin.ShutDown` | src/main/java/com/esp32tracker/ESP32TrackerPlugin.java:70-74 | shutdown clears the last skill and changes no other field |
| `PushPlugin.OnGameStateChanged` | src/main/java/com/esp32tracker/ESP32TrackerPlugin.java:76-86 | the login screen clears the last skill and every baseline but keeps the pending flag, the pending skill and the send time; any other game state changes nothing |
| `PushPlugin.OnStatChanged` | src/main/java/com/esp32tracker/ESP32TrackerPlugin.java:88-117 | OVERALL or an ignored skill leaves the state unchanged; otherwise the skill becomes the last and the pending skill with the flag set, it gains a baseline equal to the current XP only if it had none, and no existing baseline changes |
| `PushPlugin.OnGameTick` | src/main/java/com/esp32tracker/ESP32TrackerPlugin.java:177-207 | a tick that finds no address, no selected skill (pending skill if pending, else last skill) or a closed throttle changes nothing, so the pending flag survives; otherwise it records `now` as the send time, and for non-negative clock readings that is at least 1000 ms after the previous one; it sends the selected skill's record and clears the pending flag exactly when the update URL parses, and keeps the pending flag when it does not |
| `PushPlugin.BuildSkillData` | src/main/java/com/esp32tracker/ESP32TrackerPlugin.java:209-253 | skill, XP, level, boosted level, rates and time to level are copied from their inputs; XP gained is current XP minus baseline, or 0 without a baseline; the progress field is the progress percentage |
| `PushPlugin.ProgressPercent` | src/main/java/com/esp32tracker/ESP32TrackerPlugin.java:238-250 | exactly 100 at level 99 and above; below it, for non-negative XP, exactly (XP minus the level's threshold) divided by (the next threshold minus this one), times 100; hence 0 at the threshold, strictly positive and below 100 inside the level's span, negative below the span and at least 100 above it (no clamping) |
| `PushPlugin.IdleTickResends` | src/main/java/com/esp32tracker/ESP32TrackerPlugin.java:185-206 | after a send the last skill is kept, so a later tick without new events sends that skill again once 1000 ms have passed |
| `PushPlugin.LoginScreenKeepsPendingUpdate` | src/main/java/com/esp32tracker/ESP32TrackerPlugin.java:81-85 | the login screen does not cancel a pending update: an allowed tick immediately after it still sends the pending skill, with 0 XP gained because its baseline is gone |
| `PushPlugin.MalformedAddressNeverSends` | src/main/java/com/esp32tracker/ESP32TrackerPlugin.java:255-268 | with an address whose update URL does not parse, a tick sends nothing and does not clear the pending flag; a tick past the throttle only records the send time |
| `PushPlugin.ShutDownKeepsBaselines` | src/main/java/com/esp32tracker/ESP32TrackerPlugin.java:105-109 | a skill seen before a shutdown keeps its original baseline when it is trained again afterwards |
| `TrimmedPlugin.ShutDown` | src/main/java/com/esp32tracker/xptracker/ESP32TrackerPlugin.java:72-77 | shutdown clears the last skill and every baseline and keeps the pending flag, the pending skill and the send time |
| `TrimmedPlugin.OnGameStateChanged` | src/main/java/com/esp32tracker/xptracker/ESP32TrackerPlugin.java:79-87 | the login screen has the same effect as a shutdown: it clears the last skill and every baseline and keeps the pending flag, the pending skill and the send time; any other game state changes nothing |
| `TrimmedPlugin.OnStatChanged` | src/main/java/com/esp32tracker/xptracker/ESP32TrackerPlugin.java:89-103 | OVERALL or an ignored skill leaves the state unchanged; otherwise the skill becomes the last and the pending skill with the flag set, and `putIfAbsent` gives it a baseline only if it had none, never overwriting one |
| `TrimmedPlugin.OnGameTick` | src/main/java/com/esp32tracker/xptracker/ESP32TrackerPlugin.java:105-128 | a tick that finds no address, no selected skill or a closed throttle changes nothing; otherwise it records `now` as the send time (at least 1000 ms after the previous one for non-negative clock readings), and it sends the record and clears the pending flag exactly when the update URL parses |
| `TrimmedPlugin.BuildSkillData` | src/main/java/com/esp32tracker/xptracker/ESP32TrackerPlugin.java:162-181 | the readings are copied unchanged; XP gained is current XP minus baseline, and exactly 0 without a baseline because the current XP is the default |
| `TrimmedPlugin.ShutDownRebaselines` | src/main/java/com/esp32tracker/xptracker/ESP32TrackerPlugin.java:75-76 | a tracked event immediately after a shutdown records the XP of that moment as the only baseline |
| `Variants.StatHandlersAgree` | src/main/java/com/esp32tracker/xptracker/ESP32TrackerPlugin.java:94-102 | the two files' stat handlers produce the same state on every input |
| `Variants.GameStateHandlersAgree` | src/main/java/com/esp32tracker/xptracker/ESP32TrackerPlugin.java:80-86 | the two files' game-state handlers produce the same state on every input |
| `Variants.ShutDownsDiffer` | src/main/java/com/esp32tracker/xptracker/ESP32TrackerPlugin.java:73-77 | the trimmed shutdown is the push shutdown plus clearing the baselines, so the two agree exactly when there are no baselines |
| `Variants.TicksAgree` | src/main/java/com/esp32tracker/xptracker/ESP32TrackerPlugin.java:177-178 | on the same inputs both ticks leave the same state, send on the same ticks and send records that agree on every shared field, including XP gained |
| `Trace.StepPreservesValid` | src/main/java/com/esp32tracker/xptracker/ESP32TrackerPlugin.java:53-61 | every handler of either variant keeps the state invariant |
| `Trace.RunPreservesValid` | src/main/java/com/esp32tracker/ESP32TrackerPlugin.java:51-58 | every sequence of events keeps the state invariant |
| `Trace.OverallNeverSent` | src/main/java/com/esp32tracker/ESP32TrackerPlugin.java:93-97 | from a valid state no sequence of events ever sends a record for OVERALL |
| `Trace.RunSpacesSends` | src/main/java/com/esp32tracker/ESP32TrackerPlugin.java:194-206 | over any sequence of events with non-negative clock readings each send comes at least 1000 ms after the previous one, and the state's send time never falls behind the latest send |
| `Trace.SpacedPairwise` | src/main/java/com/esp32tracker/ESP32TrackerPlugin.java:200 | if each send is 1000 ms after the one before, any two sends are at least 1000 ms apart |
| `Trace.SendsAtLeastDelayApart` | src/main/java/com/esp32tracker/xptracker/ESP32TrackerPlugin.java:119-127 | for non-negative clock readings, however the events burst, no two sent records are less than 1000 ms apart |
| `Trace.BaselinesWrittenOnce` | src/main/java/com/esp32tracker/xptracker/ESP32TrackerPlugin.java:99 | until a login screen (or, in the trimmed variant, a shutdown) every recorded baseline keeps its value |
| `Trace.ResetThenStatRebaselines` | src/main/java/com/esp32tracker/ESP32TrackerPlugin.java:81-85 | in either variant, after a reset (the login screen, or a shutdown of the trimmed variant) followed by any events short of a tracked stat event, such as the game states of logging in again and ticks, the next tracked event leaves exactly one baseline: the XP of that moment (the trimmed reset is at lines 75-76 and 84-85 of its file) |
| `Trace.UntrackedKeepsNoBaselines` | src/main/java/com/esp32tracker/ESP32TrackerPlugin.java:89-109 | only a stat event for a tracked skill records a baseline: from an empty baseline map every other event sequence leaves it empty |
| `Trace.ResetKeepsPendingUpdate` | src/main/java/com/esp32tracker/ESP32TrackerPlugin.java:81-85 | in either variant a reset does not cancel a pending update: after any game-state changes, shutdowns and stopped ticks, the first tick that passes the throttle and builds its URL is the only send, reports the pending skill with 0 XP gained, and clears the pending flag |
| `Trace.StepKeepsUnselected` | src/main/java/com/esp32tracker/xptracker/ESP32TrackerPlugin.java:94-97 | no handler makes a skill selectable or reports it unless a stat event for it arrives while it is not ignored |
| `Trace.IgnoredNeverSent` | src/main/java/com/esp32tracker/ESP32TrackerPlugin.java:99-103 | a skill that was ignored whenever its stat events arrived is never sent; only the setting at stat time matters |

## Left out

- The HTTP transport is left out: `sendToESP32` and `testConnection` in both files, and the OkHttp client with its 5-second timeouts. Once the request is built, the call is queued without waiting, and its callbacks only close the response. A send is modelled as the record a tick returns. Whether the device receives it is not modelled.
- OkHttp's URL parsing is left out. It is the input `urlParses`, applied to `"http://" + address + "/update"`. A failed parse is modelled as a tick that records the send time and sends nothing. The exception itself and its logging by the host's event bus are not modelled.
- `startUp` is left out. It only calls `testConnection` when an address is set, and it does not touch the state.
- JSON encoding with Gson, the dependency-injection wiring and the plugin annotations are left out.
- The record holds the `Skill` value, not the text `Skill.getName` returns. That text comes from the host enumeration.
- `progress_percent` is computed over real numbers, not Java `float`, so float rounding is not modelled.
- Float division by zero (which gives infinity or NaN) cannot happen in the model. The level table is required to be strictly increasing, as `Experience.getXpForLevel` is.
- `Experience.getXpForLevel` is modelled as any table that is non-negative and strictly increasing on levels 1 to 99. Its formula and its exception for levels outside 1 to 126 are not modelled. That exception cannot be reached: levels are at least 1, and only levels up to 99 are looked up.
- The XP tracker service's rate and time-to-goal computations are left out. The client's getters and `System.currentTimeMillis` are left out too. All of these are inputs to the handlers.
- The two settings interfaces are left out. They only declare defaults. The model gives the handlers a record holding the address and the flags, and a flag that is not present counts as off.
- Trace.SendsAtLeastDelayApart: assumes clock readings and the starting send time are non-negative, as epoch milliseconds are. With negative readings the `long` subtraction could wrap and let an early send through.
- Trace.RunSpacesSends: assumes non-negative clock readings, for the same reason.
- PushPlugin.IdleTickResends: covers only the case where the last skill is still set after the first send. After a shutdown with an update pending, the last skill is null, so no second send follows.
