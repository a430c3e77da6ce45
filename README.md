# Dragonfly Win32 keyboard core, modelled in Dafny

This project models `dragonfly/actions/keyboard.py` from the Dragonfly speech
automation library. The file turns characters into key events and sends those
events to Windows in timed batches. It has three parts.

- **Typeable** (`typeable.dfy`, module `Typeables`) holds a base virtual-key
  code and an ordered list of modifier codes. It builds three event lists of
  `(keycode, down, timeout)` triples: the press events (`on_events`), the
  release events (`off_events`) and a full keystroke (`events`). `Events` is a
  method with the source's loop: it walks the modifiers backwards, inserts each
  press at the front and appends each release. It is proved equal to the
  reference `Keystroke` and to `on_events(0) + off_events(timeout)`.
- **Key resolution** (`keycodes.dfy`, module `KeyCodes`, with `bitwise.dfy`,
  module `Bitwise`):
  - The `VkKeyScan` result is taken as an integer parameter `packed`.
  - Python's `&` is `BitAnd`, which is exact for negative values too.
  - `get_keycode_and_modifiers` and `xget_virtual_keycode` return a `Result`.
    `Err(UnknownChar(ch))` stands for the `ValueError` and is returned exactly
    when `packed` is the sentinel -1.
  - The static Neo2 layout table is the function `Neo2Typeable`, with one case
    per dictionary entry. `None` stands for the `(-1, -1)` miss value.
  - `get_typeable` looks in the table first and masks a hit's code to its low
    byte; only on a miss does it decode `packed`.
- **Batched sending** (`dispatch.dfy`, module `Dispatch`):
  - `send_keyboard_events` is the method `Keyboard.SendKeyboardEvents`. It keeps
    the source's loop, its `items` buffer and its final flush.
  - The class has two logs. `sent` gets one entry per `send_input_array` call
    and `slept` one per `time.sleep` call.
  - The reference definition is `Runs`. It cuts the event list after every
    event with a nonzero timeout. `Batches` is the `(keycode, down)` pairs of
    each run; `Sleeps` is the nonzero timeouts in order.
  - The method is proved to produce exactly `Batches(events)` and
    `Sleeps(events)`.
  - `RunSleeps` shows how sends and sleeps interleave: a sleep follows a batch
    exactly when the batch's last timeout is nonzero.

Two behaviours of keyboard.py are easy to misread:

- **Order of `off_events`.** `off_events` builds the releases in stored order,
  appends the base release and reverses the whole list (keyboard.py:54-58).
  So the base release comes first and the modifiers follow last-stored-first
  (`OffEventsOrder`, `TwoModifierExample`).
- **No double sleep.** The post-loop `if timeout: time.sleep(timeout)`
  (keyboard.py:112) never sleeps. An event with a nonzero timeout empties
  `items` inside the loop, so the final `if items:` block runs only when the
  last timeout is zero. The model keeps that line as written. The loop
  invariant kept by `Dispatch.BatchProgressStep` says the buffer is non-empty
  only while the last timeout is zero. `Dispatch.Keyboard.SendKeyboardEvents`
  proves that `slept` gains exactly `Sleeps(events)`, one entry per nonzero
  timeout.

## Model

| member | source | states |
|---|---|---|
| Typeables.Events | dragonfly/actions/keyboard.py:60-65 | the loop's result is the keystroke: modifiers pressed in stored order, base press with delay 0, base release with the delay, modifiers released last-stored-first; it equals `on_events(0) + off_events(timeout)` |
| Typeables.KeystrokeIsOnThenOff | dragonfly/actions/keyboard.py:49-65 | a full keystroke is exactly the press events with delay 0 followed by the release events with the delay |
| Typeables.KeystrokeShape | dragonfly/actions/keyboard.py:60-65 | a keystroke with n modifiers has 2 + 2n events: presses of modifiers 0..n-1, base press, base release, then releases of modifiers n-1..0 |
| Typeables.KeystrokeBrackets | dragonfly/actions/keyboard.py:60-65 | event 2n+1-i releases the key pressed by event i, so presses and releases nest symmetrically |
| Typeables.KeystrokeTimeoutOnBaseRelease | dragonfly/actions/keyboard.py:60-65 | in a keystroke only the base release carries the delay; every other event has delay 0 |
| Typeables.OnEvents | dragonfly/actions/keyboard.py:49-52 | `on_events`: the modifier presses then the base press; its contract is stated by `OnEventsOrder` |
| Typeables.OffEvents | dragonfly/actions/keyboard.py:54-58 | `off_events`: the releases and the base release, reversed as a whole; its contract is stated by `OffEventsOrder` and `OffEventsPositions` |
| Typeables.OnEventsOrder | dragonfly/actions/keyboard.py:49-52 | `on_events` has n + 1 events: the modifier presses in stored order with delay 0, then the base press carrying the delay |
| Typeables.OffEventsOrder | dragonfly/actions/keyboard.py:54-58 | `off_events(t)` is the base release carrying t, followed by the modifier releases in reverse stored order |
| Typeables.OffEventsPositions | dragonfly/actions/keyboard.py:54-58 | position by position: event 0 is the base release with the delay, and event i is the release of modifier n - i with delay 0 |
| Typeables.TwoModifierExample | dragonfly/actions/keyboard.py:49-58 | with modifiers [m1, m2], `on_events(5)` is m1, m2 pressed then the key pressed with 5; `off_events(5)` is the key released with 5, then m2, then m1 |
| KeyCodes.KeycodeAndModifiers | dragonfly/actions/keyboard.py:133-147 | error exactly when the scan result is -1, naming the character; otherwise the code is the result mod 256 (0..255) and at most one modifier is returned: shift iff bit 8 is set, ctrl iff bit 8 is clear and bit 9 set, alt iff bits 8 and 9 are clear and bit 10 set, none otherwise |
| KeyCodes.KeyScanRoundTrip | dragonfly/actions/keyboard.py:138-147 | decoding a key below 256 packed with at most one of shift, ctrl, alt gives back that key and that modifier list |
| KeyCodes.XVirtualKeycode | dragonfly/actions/keyboard.py:115-130 | fails exactly when `get_keycode_and_modifiers` fails, with the same error; otherwise returns `[code] + modifiers` of that decoding |
| KeyCodes.GetTypeable | dragonfly/actions/keyboard.py:252-260 | a table hit gives the entry's code mod 256 and its modifiers, whatever the OS would say; a miss gives the decoder's result or its error; it fails exactly on a miss whose scan result is -1; every result has a code in 0..255 and at most one modifier |
| KeyCodes.Neo2Typeable | dragonfly/actions/keyboard.py:151-249 | `get_neo2_typeable`: one case per table entry, `None` for the `(-1, -1)` miss; its contract is stated by `Neo2CoversPrintableAscii`, `Neo2EntriesWellFormed` and `Neo2LettersShareKeys` |
| KeyCodes.Neo2EntriesWellFormed | dragonfly/actions/keyboard.py:151-249 | every table entry has a non-negative code, so the -1 miss test never hits a real entry, and its modifiers are none, Mod2, Mod3 or Mod4 |
| KeyCodes.Neo2CoversPrintableAscii | dragonfly/actions/keyboard.py:152-249 | the table has an entry exactly for the printable ASCII characters, space to tilde |
| KeyCodes.PrintableAsciiAlwaysResolves | dragonfly/actions/keyboard.py:252-260 | every printable ASCII character resolves to a typeable, whatever the scan result |
| KeyCodes.Neo2LettersShareKeys | dragonfly/actions/keyboard.py:154-205 | each lowercase letter maps to its uppercase ASCII code with no modifier; its uppercase entry masks to the same key and carries Mod2 |
| KeyCodes.Neo2ShiftEntryRange | dragonfly/actions/keyboard.py:151-249 | entries with no modifier have codes below 256; entries with Mod2 have codes from 256 to 511 |
| KeyCodes.Neo2ShiftEntriesArePacked | dragonfly/actions/keyboard.py:151-249 | for the entries with no modifier or with Mod2, decoding the table code as a scan result yields the same key and modifier list that the table lookup yields |
| KeyCodes.Neo2UppercaseAExample | dragonfly/actions/keyboard.py:180 | "A" resolves to key 65 with Mod2, whatever the scan result |
| KeyCodes.Neo2UppercaseAKeystroke | dragonfly/actions/keyboard.py:60-65 | the keystroke of `Typeable(321, [Mod2])` is Mod2 down, 321 down, 321 up, Mod2 up |
| Bitwise.KeyScanMasks | dragonfly/actions/keyboard.py:143-146 | `x & 0x00ff` is `x` mod 256, and `x & 0x0100`, `0x0200` and `0x0400` are non-zero exactly when bits 8, 9 and 10 are set, for every integer `x` |
| Bitwise.BitAndLowBits | dragonfly/actions/keyboard.py:146 | masking with 2^k - 1 is the remainder modulo 2^k |
| Bitwise.BitAndSingleBit | dragonfly/actions/keyboard.py:143-145 | masking with 2^k gives 2^k when bit k is set and 0 otherwise |
| Dispatch.Keyboard.SendKeyboardEvents | dragonfly/actions/keyboard.py:100-112 | appends exactly the reference batches to the send log and exactly the nonzero timeouts, in order, to the sleep log; with no events both are empty, so nothing is sent and nothing slept |
| Dispatch.LoggedProgressStep | dragonfly/actions/keyboard.py:101-108 | one loop iteration buffers the event; after a nonzero timeout the buffer is sent as the next batch, emptied and the timeout slept, and the loop invariant is kept |
| Dispatch.BatchProgressStep | dragonfly/actions/keyboard.py:101-108 | one loop iteration keeps the invariant that the buffer holds the open run and is non-empty only while the last timeout is zero; a nonzero timeout closes the run, adding one batch and one sleep |
| Dispatch.BatchProgressEnd | dragonfly/actions/keyboard.py:109-112 | after the loop the closed runs plus the buffer are all the batches, and the sleeps are those of the closed runs |
| Dispatch.LoggedProgressEnd | dragonfly/actions/keyboard.py:109-112 | after the loop the logs plus the final flush are exactly the reference batches and sleeps |
| Dispatch.BatchesCoverEvents | dragonfly/actions/keyboard.py:100-111 | the batches concatenate to the events' `(keycode, down)` pairs in order, and no batch is empty |
| Dispatch.RunsShape | dragonfly/actions/keyboard.py:101-108 | every run is non-empty, every run but the last ends with a nonzero timeout, and no other event in a run has one |
| Dispatch.RunsNonEmpty | dragonfly/actions/keyboard.py:100-111 | there are no runs exactly when there are no events |
| Dispatch.RunsSnoc | dragonfly/actions/keyboard.py:101-108 | one more event starts a new run after a closed one and otherwise extends the open run, as the loop's buffer does |
| Dispatch.SleepsFollowRuns | dragonfly/actions/keyboard.py:104-112 | the sleeps are one per run that ends with a nonzero timeout, that timeout, in order; an open trailing run adds none |
| Dispatch.KeystrokeBatches | dragonfly/actions/keyboard.py:100-112 | a keystroke with delay 0 goes as one batch with no sleep; with a delay, the presses and the base release go as one batch, then the sleep, then the modifier releases as a second batch if there are modifiers |
| Dispatch.DispatchExample | dragonfly/actions/keyboard.py:100-112 | A down (0), B down (d > 0), C down (0) is sent as `[A, B]`, then a sleep of d, then `[C]` |

## Left out

- `windll.user32.VkKeyScanA` / `VkKeyScanW`, and the `isinstance(char, str)` choice between them (keyboard.py:118-121, 134-137). These are foreign calls. Their packed integer result is the parameter `packed`.
- `KeyboardInput`, `make_input_array` and `send_input_array` from `dragonfly.actions.sendinput`. That module is not part of this model. A send appends the batch of `(keycode, down)` pairs to `sent`. Its possible injection failure is not modelled, so a send always succeeds.
- `time.sleep`: a sleep appends its duration to `slept`.
- Timeouts are `nat` ticks, with 0 standing for Python's falsy timeout. Float and negative timeouts are not modelled.
- The `print` warning in `xget_virtual_keycode` (keyboard.py:116), because it is console output only.
- `Typeable.__str__` (keyboard.py:46-47) and the `name` field (keyboard.py:41, 44), because they are only used for diagnostics.
- The module-level instance `keyboard = Keyboard()` (keyboard.py:263) and concurrent callers.
- The win32con values of VK_SHIFT, VK_CONTROL and VK_LMENU are taken from the Win32 virtual-key table (0x10, 0x11, 0xA4). win32con itself is not part of this model.
- Dispatch.Keyboard.SendKeyboardEvents: its ensures speak of the two logs separately, so they do not fix the order in which sends and sleeps interleave. That order is stated against the reference runs by `RunSleeps` and `SleepsFollowRuns`.
