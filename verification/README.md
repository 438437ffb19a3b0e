# heimdallr overlay core, modelled in Dafny

heimdallr is a full-screen Wayland overlay. It draws a frame around the
screen, a row of status icons, a clock and a notification banner. Its
state comes from three sources:

- a stream of newline-delimited JSON status records from the ratatoskr
  service;
- command tokens from a named pipe;
- desktop notifications received as the `org.freedesktop.Notifications`
  bus service.

This project models the logic that turns these inputs into overlay state,
and proves properties of it.

Modules:

- `Data` (`data.dfy`) is the status-stream client `RatatoskrSocket`. It
  covers:
  - a small connection state machine that emits synthetic `"ratatoskr"`
    records on connect and disconnect;
  - a carry-over text buffer;
  - framing of each UTF-8 chunk into complete lines, each trimmed and
    parsed into a `PartialMsg`.

  `ConsumeChunk` is the draining loop. It is proved against the framing
  functions `Frame`/`Records`/`Feed`. Their properties are proved as
  lemmas:
  - lossless decomposition;
  - uniqueness;
  - the leftover is the text after the last newline;
  - split invariance at the text level and at the byte level.
- `Layer` (`heimdallr_layer.dfy`) is the state object `HeimdallrLayer`. It
  covers the icon map, the notification list and its cursor, the
  throttled redraw, the configure size defaulting and the map of live
  buffers, each as a method with a field-level frame.
- `Reconciler` (`main.dfy`) is one pass of the main loop: one command,
  then one status record, then one notification batch.
  - Pure functions (`CommandStep`, `StatusStep`, `NotificationStep`,
    `TickSpec`) say what a pass does to a `Layer.State` snapshot.
  - `EventLoop.Tick` performs the pass on the objects and is proved to
    agree with `TickSpec`.
  - Lemmas cover idempotence of a status record, the connection flag and
    icons following the last record, and icon well-formedness. A
    temperature or network record at or above 0.3 with an empty icon
    changes nothing, so the previous icon stays with its old colour and
    level (`StaleIconKept`).
- `Notifications` (`notifications.dfy`) covers the `Notify` and
  `GetServerInformation` methods of the freedesktop.org Desktop
  Notifications Specification as this program implements them:
  - the wrapping id counter;
  - urgency decoding from the hints;
  - the expiry rule;
  - the summary flags.
- `Config` (`config.dfy`) covers `FrameColor::from_json` and the
  `show_clock` default.
- Support modules model the Rust library behaviour the core relies on:
  - `Text`: `str::find`, `trim` with Unicode White_Space, and `contains`,
    with a reference definition;
  - `Utf8`: `std::str::from_utf8` as a strict UTF-8 decoder following the
    well-formed byte sequences table of RFC 3629, section 4;
  - `Json`: the parts of `serde_json::Value` that are used;
  - `Channels`: an `mpsc` channel as a FIFO;
  - `Ints`: the fixed-width integer ranges.

Other modelling choices:

- Floating-point values are `real`.
- Times are integer milliseconds passed in as inputs.
- The result of a connect attempt and of a read are inputs.
- JSON decoding of a record is an arbitrary `parse` function.
- The colour gradient is an arbitrary `gradient` function.

The source is in the middle of a refactor, and its files disagree with
one another in a few places. The model follows each function's own
declaration:

- `main.rs` names the socket type `HeimdallrSocket` (src/main.rs:17,
  src/main.rs:97), but src/data.rs:14 defines `RatatoskrSocket`. The model
  uses `RatatoskrSocket`.
- `add_icon` declares four parameters (src/heimdallr_layer.rs:363), but
  src/main.rs:208 passes three. The model passes the record's warning
  level as the missing `warn`.
- `request_redraw` takes a `reason` (src/heimdallr_layer.rs:69), but
  `main.rs` calls it without one. The model passes a descriptive string,
  which only affects logging.
- The notification channel carries `Vec<Notification>` in `main.rs`
  (src/main.rs:99), but `Notification` values in the server
  (src/notifications.rs:32). The model keeps both types as declared: the
  server sends single notifications, and the loop receives batches.
- The struct literal at src/main.rs:69-91 sets no `animator` and no
  `frame_model`. The model's constructor leaves them out too, and it takes
  `screen_height` as a parameter because its definition is not part of
  this model.

## Model

| member | source | states |
|---|---|---|
| Text.Find | src/data.rs:71 | `find('\n')` returns the first index holding the character, with no earlier occurrence, and `None` exactly when the character is absent |
| Text.TrimStartSpec | src/data.rs:72 | trimming the front keeps a suffix that does not start with whitespace and drops only whitespace |
| Text.TrimEndSpec | src/data.rs:72 | trimming the back keeps a prefix that does not end with whitespace and drops only whitespace |
| Text.TrimEmptyIff | src/data.rs:72-73 | a trimmed line is empty exactly when the line is all whitespace |
| Text.ContainsWitness | src/notifications.rs:81-82 | where `contains` holds, a position starting a copy of the needle exists |
| Text.OccursAtContains | src/notifications.rs:81-82 | a copy of the needle at any position makes `contains` hold |
| Text.ContainsIff | src/notifications.rs:81-82 | `contains` holds iff some position starts a copy of the needle |
| Utf8.DecodeFirst | src/data.rs:66 | a decoded first character uses 1 to 4 bytes within the input |
| Utf8.DecodeAppend | src/data.rs:66 | the decoding of two well-formed byte strings joined is the two decodings joined |
| Utf8.DecodeAscii | src/data.rs:66 | ASCII bytes decode one character per byte |
| Utf8.SplitCharacterIsIllFormed | src/data.rs:53-66 | for every two-byte character (lead 0xC2..0xDF, continuation 0x80..0xBF), the two bytes decode to one character, but each byte alone, as two reads would deliver them, is ill-formed |
| Json.Index | src/main.rs:172-173 | indexing yields the member of an object and `Null` for a missing key or a non-object |
| Json.AsF64 | src/main.rs:172 | a conversion succeeds exactly on numbers and yields the number |
| Json.AsStr | src/main.rs:173 | a conversion succeeds exactly on strings and yields the string |
| Channels.Channel.constructor | src/data.rs:24 | a new channel holds nothing |
| Channels.Channel.Send | src/data.rs:75 | sending appends the message at the back |
| Channels.Channel.TryRecv | src/main.rs:165 | receiving takes the oldest message, and yields nothing on an empty queue |
| Data.FrameDecomposes | src/data.rs:68-82 | the complete lines, each followed by its newline, then the leftover, are the buffered text; no line and not the leftover contains a newline |
| Data.FrameUnique | src/data.rs:71-82 | framing is the only split of a text into newline-terminated, newline-free lines and a newline-free suffix |
| Data.FrameSplit | src/data.rs:68-82 | framing two texts joined is framing the first, then the second after the first's leftover |
| Data.LeftoverFollowsLastNewline | src/data.rs:68-82 | the buffer left behind is exactly the text after the last newline, or the whole text when there is none |
| Data.Records | src/data.rs:71-79 | no more records than complete lines |
| Data.RecordsAppend | src/data.rs:71-82 | records of lines joined are the records of each part, in line order |
| Data.BlankLineYieldsNothing | src/data.rs:72-73 | an empty or all-whitespace line is consumed without a record |
| Data.FeedLeavesNoNewline | src/data.rs:68-82 | after a chunk is processed, the buffer holds no newline |
| Data.FeedWithoutNewline | src/data.rs:68-71 | text without a newline only accumulates in the buffer, and nothing is emitted |
| Data.FeedSplit | src/data.rs:68-82 | processing chunk `a` then chunk `b` emits the same records in the same order, and leaves the same buffer, as processing `a + b` once |
| Data.ReceiveSplit | src/data.rs:66-82 | the same split invariance for two reads that are each valid UTF-8 |
| Data.RatatoskrSocket.constructor | src/data.rs:23-26 | not connected, empty buffer, empty channel |
| Data.RatatoskrSocket.TryConnect | src/data.rs:28-49 | no-op while connected; a successful connect holds the stream and emits exactly one `ratatoskr` record with warning 0.0; a failed connect changes and emits nothing |
| Data.RatatoskrSocket.PollMessages | src/data.rs:51-96 | without a stream, only a connect attempt. With one: a zero-length read emits one `ratatoskr` record with warning 1.0 and drops the stream; well-formed bytes emit the records of the complete lines and leave the text after the last newline; ill-formed bytes are dropped whole; would-block changes nothing; another error drops the stream silently |
| Data.RatatoskrSocket.EmitLine | src/data.rs:72-79 | one complete line sends its parse, unless it is blank or does not parse |
| Data.RatatoskrSocket.ConsumeChunk | src/data.rs:68-82 | the draining loop leaves exactly the framing leftover and sends exactly the framed records, in order |
| Data.DrainStep | src/data.rs:71-81 | draining the first line keeps the loop invariant: records sent plus records still in the buffer are the records of the whole text |
| Data.DrainEnd | src/data.rs:71 | once no newline is left, every record has been sent and the buffer is the framing leftover |
| Config.NumbersKeepAll | src/config.rs:50-54 | `filter_map(as_f64)` keeps every element iff all are numbers, and then keeps each in place |
| Config.FromJson | src/config.rs:28-67 | never `Random`. `null`, an absent value, a bool, a number, an object and an array whose length is not 4 give `None`. The result is `WorstResource` iff the input is the string "worst-resource". "random" gives an opaque `Rgba` |
| Config.FourNumbersAreRgba | src/config.rs:49-55 | four numbers give `Rgba` with the components in order |
| Config.NonNumberIsRejected | src/config.rs:54-59 | a four-element array with a non-number gives `None` |
| Config.UnknownStringIsRejected | src/config.rs:43-46 | any other string gives `None` |
| Config.RandomIsOpaque | src/config.rs:33-40 | "random" gives alpha 1.0 and colour components in [0, 1) |
| Config.Load | src/config.rs:79-92 | `show_clock` is false only when set to false explicitly; invalid configuration text gives frame colour `None` |
| Notifications.GetU8 | src/notifications.rs:35-43 | a missing key gives 0; a u8 hint is returned as is; any non-zero result is the hint's own value |
| Notifications.GetU8ByValue | src/notifications.rs:35-43 | for u8, u16 and u32 alike, a value that fits in a byte is returned, and a wider one gives 0 |
| Notifications.ExpiryDeadline | src/notifications.rs:65-67 | a timeout above 1 expires that many seconds after arrival. Otherwise a non-critical notification expires after 3 s and a critical one never. Any deadline is at least 2 s away |
| Notifications.SmallTimeoutsAgree | src/notifications.rs:65-67 | timeouts -1, 0 and 1 behave alike, unlike the meanings the standard gives -1 and 0 |
| Notifications.ExpiryMonotone | src/notifications.rs:65-67 | a later arrival never expires earlier |
| Notifications.IdsCount | src/notifications.rs:8-12 | the first id is 2, each later one is one more, and the counter wraps to 0 after 2^32 - 1 |
| Notifications.IdsIncrease | src/notifications.rs:8-12 | ids are strictly increasing until the counter wraps |
| Notifications.IdCounter.constructor | src/notifications.rs:8 | the counter starts at 2 |
| Notifications.IdCounter.GenerateId | src/notifications.rs:10-12 | the k-th call returns the k-th id |
| Notifications.NotificationServer.constructor | src/notifications.rs:110-113 | the server holds the counter and the sending half |
| Notifications.NotificationServer.Notify | src/notifications.rs:48-97 | sends exactly one notification. App name, summary, body, icon and replaced id are copied. The urgency is decoded from the hints and the expiry follows the rule. `unmounting`/`reboot` hold iff the summary contains "Unmounting"/"Reboot recommended". The returned id is the notification's own and the next from the counter |
| Notifications.NotificationServer.GetServerInformation | src/notifications.rs:99-106 | the server answers ("Heimdallr", "Vincenzo", "1.0", "1.2") |
| Layer.RemoveAt | src/heimdallr_layer.rs:380 | `Vec::remove` drops exactly the element at the index, and the others keep their order |
| Layer.HeimdallrLayer.constructor | src/main.rs:69-91 | the initial overlay state: width 1920, no icons, no battery data, a redraw pending, a 1000 ms interval, no notifications, cursor 0, not connected |
| Layer.HeimdallrLayer.RequestRedraw | src/heimdallr_layer.rs:69-74 | sets the redraw flag and touches nothing else |
| Layer.HeimdallrLayer.MaybeRedraw | src/heimdallr_layer.rs:76-93 | it draws iff animating, or a redraw is pending and the interval has elapsed. A draw clears the flag and resets the redraw time; otherwise nothing changes |
| Layer.HeimdallrLayer.Draw | src/heimdallr_layer.rs:95-143 | clears the flag, records the new buffer and the redraw time, and brings the cursor back onto the list |
| Layer.HeimdallrLayer.DrawNotification | src/heimdallr_layer.rs:317-320 | on a non-empty list, a cursor past the end becomes the last index, and any other cursor is kept |
| Layer.HeimdallrLayer.AddIcon | src/heimdallr_layer.rs:363-372 | the icon under the id becomes exactly the given glyph, colour and warning; other keys are unchanged |
| Layer.HeimdallrLayer.RemoveIcon | src/heimdallr_layer.rs:374-376 | returns whether the id was present. Afterwards the id is absent and the other entries are unchanged |
| Layer.HeimdallrLayer.RemoveNotification | src/heimdallr_layer.rs:378-385 | with the cursor on a notification, removes exactly that one and returns true; otherwise it returns false and changes nothing. The cursor never changes, so the reset at line 381 cannot happen |
| Layer.HeimdallrLayer.ShowNotification | src/heimdallr_layer.rs:387-393 | succeeds and moves the cursor iff the index names a notification; otherwise the cursor is kept |
| Layer.HeimdallrLayer.Configure | src/heimdallr_layer.rs:437-443 | a zero width becomes 1920 and a zero height 1080; only the first configure draws |
| Layer.HeimdallrLayer.ReleaseBuffer | src/heimdallr_layer.rs:474-484 | a released buffer is forgotten; reports whether it was held |
| Layer.BannerIndex | src/heimdallr_layer.rs:318-320 | after a draw with notifications, the cursor is in range and unchanged if it already was |
| Layer.BannerAsWritten | src/heimdallr_layer.rs:326 | the banner draws a notification of the list (always the first) |
| Layer.BannerIgnoresCursor | src/heimdallr_layer.rs:326-338 | with the cursor on the second of two notifications, the counter says 2/2 but the first is drawn |
| Layer.Banner | src/heimdallr_layer.rs:317-338 | the banner draws the notification under the clamped cursor |
| Reconciler.ShowStep | src/main.rs:147-158 | a cursor move that names a notification moves the cursor and requests a redraw; any other move changes nothing |
| Reconciler.CommandStep | src/main.rs:139-162 | an unknown token changes nothing. `prev` at cursor 0 and `next` on an empty list change nothing. `hide` requests a redraw iff a notification was removed. Commands never touch icons, battery data or the connection flag |
| Reconciler.Recharging | src/main.rs:173-177 | "Discharging" gives `Some(false)`, "Charging" gives `Some(true)`, and every other string gives `None` |
| Reconciler.BatteryStep | src/main.rs:167-182 | a "battery" record with data sets the ETA from `eta` and the charging flag from `state`, and requests a redraw. A non-string `state` aborts. Other records change nothing |
| Reconciler.Glyph | src/main.rs:195-200 | loadavg, ram and disk have fixed glyphs; temperature and network use the record's own icon; every other resource has none |
| Reconciler.IconStep | src/main.rs:184-211 | sets the connection flag to `warning < 0.5`. Below 0.3 the resource's icon is removed; at or above it, a non-empty glyph replaces it. A redraw is requested only when the flag changed, an icon existed to remove, or an icon was set |
| Reconciler.NotificationStep | src/main.rs:214-220 | a batch replaces the list wholesale, requests a redraw and keeps the cursor |
| Reconciler.StatusStepIdempotent | src/main.rs:165-212 | applying the same record twice is applying it once |
| Reconciler.ConnectedFollowsLastRecord | src/main.rs:184-188 | after any sequence of records, the connection flag reflects the last one, whatever its resource |
| Reconciler.LastEffective | src/main.rs:189-211 | the record it picks is about the resource, occurs in the sequence, and changes the icon (below 0.3, or with a glyph) |
| Reconciler.IconFollowsLastRecord | src/main.rs:189-211 | after any sequence of records, a resource's icon is decided by its last record that takes effect: absent if that record is below 0.3, otherwise that record's glyph, colour and level; with no such record, the starting icon (or none) is kept |
| Reconciler.StaleIconKept | src/main.rs:194-210 | a record at or above 0.3 whose glyph is empty (temperature or network with an empty icon) leaves the previous icon, with its old colour and level |
| Reconciler.StaleTemperatureIcon | src/main.rs:194-210 | temperature at 0.6 with icon "T", then at 0.9 with an empty icon, shows "T" coloured and levelled for 0.6 |
| Reconciler.TickKeepsIconsWellFormed | src/main.rs:139-220 | every icon shown keeps a non-empty glyph and a warning of at least 0.3 |
| Reconciler.BatchReplacesList | src/main.rs:214-220 | a pass with a batch shows exactly that batch and does not move the cursor |
| Reconciler.MovedCursorIsShown | src/main.rs:147-158 | after a successful prev/next, the cursor is one step away, in range, and names the notification the banner should draw |
| Reconciler.EventLoop.constructor | src/main.rs:94-99 | the loop holds the overlay, the socket client and both receiving halves |
| Reconciler.EventLoop.ApplyCommand | src/main.rs:139-162 | acting on one command token is `CommandStep` |
| Reconciler.EventLoop.ApplyStatus | src/main.rs:165-212 | acting on one status record is `StatusStep`, including the abort |
| Reconciler.EventLoop.ApplyBattery | src/main.rs:167-182 | acting on the battery part of a record is `BatteryStep`, including the abort |
| Reconciler.EventLoop.ApplyIcon | src/main.rs:184-211 | acting on the connection flag and icon part of a record is `IconStep` |
| Reconciler.EventLoop.Tick | src/main.rs:139-220 | takes at most one message from each queue, in the order commands, status, notifications; the new state is `TickSpec`; the size, configure flag, redraw time and buffers are untouched |

## Findings

| source | as written | input that shows it | evidently intended | confidence | as-written member | corrected member |
|---|---|---|---|---|---|---|
| src/heimdallr_layer.rs:326 | the banner always draws `notifications[0]` | two notifications, cursor moved to the second with `next_notification`: the counter reads "2/2" but the first notification is drawn | draw the notification under the (clamped) cursor, which `prev`/`next` move | medium, not executed | Layer.BannerIgnoresCursor | Layer.Banner |

## Left out

- Rendering is not modelled: all cairo drawing and geometry, the clock, the frame colour chosen for `WorstResource`, `rounded_rect` and text alignment. A draw is modelled only through the state it changes.
- Wayland and SCTK plumbing is not modelled: surfaces, the shared-memory pool, event-queue dispatch and flushing, and the `closed` handler. These are display-server I/O. A buffer is modelled as its object id.
- The animator and frame model are not part of this model. Whether a frame is animating is an input of `MaybeRedraw`.
- `get_color_gradient` and `hsv_to_rgb` are floating-point colour maths. The gradient is an uninterpreted parameter.
- The command pipe (`commands.rs`), the notification bus service setup and the threads are I/O and concurrency. Their queues are `Channel`s.
- JSON parsing, file reading and tilde expansion are left out. The parsed value is an input of `Config.Load`, and the record parser is the `parse` parameter.
- Logging and `println!` output are left out.
- Clock reads are inputs in milliseconds. The server reads the clock twice for one notification; the model uses a single `now` for both readings. Likewise `draw` records the time after rendering (src/heimdallr_layer.rs:136), later than the time the redraw decision used (src/heimdallr_layer.rs:84); `Draw` records the decision's `now`.
- Floating-point numbers are exact reals: no rounding, NaN or infinities.
- Layer.HeimdallrLayer.ShowNotification: the casts of the list length and the cursor to `i32` are taken as exact. They only differ for lists of more than 2^31 notifications.
- Reconciler.EventLoop.ApplyCommand: `notification_idx as i32 ± 1` is taken as exact, as above.
- Notifications.GetU8: the zvariant values other than u8, u16 and u32 are one `OtherHint` case, including a value boxed in a variant.
- Notifications.IdCounter.GenerateId: the atomic counter is a plain field. Ordering between threads is not modelled.
- Reconciler.EventLoop.Tick: when a battery record's `state` is not a string, the program aborts. The contract then says nothing about the state.
