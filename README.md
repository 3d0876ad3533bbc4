# Booth-watch companion: a Dafny model

This project models two parts of a companion system for a Bluetooth wrist
watch used at a job fair.

- **The web panel** (`src/App.jsx`) connects to the watch over Web Bluetooth.
  It keeps a bounded activity log and writes text commands to one GATT
  characteristic: `TIME:`, `DATETIME:`, `NOTE:`, `EDIT:`, `DELETE`, `CLEAR`,
  `STATUS:`, `SHOW:`, or a raw command. It can also send an AI-generated
  cheat sheet to the watch as a note.
- **The AI relay** (`server/index.js`) guards `/api` with an optional shared
  token. It answers `POST /api/cheatsheet` by asking a language model for
  `{company, bullets}`. It cuts the `{…}` span out of the reply, parses it,
  checks it against the `CheatSheet` schema and clamps every bullet. When the
  first reply gives no usable JSON, it makes a second, stricter request.

The Dafny modules:

| module | models |
|---|---|
| `Wrappers` | the `Option` type |
| `Strings` | ECMAScript string primitives: the `\s` class, `trim`, `String(n)`, the unary `+`, `padStart(2, "0")`, `join`; also `Split`, which the source never calls and which serves only the reader `Wire.Decode` |
| `Wire` | the command datatype, its wire text, and `Decode`, a reader for the wire text used to prove the format unambiguous |
| `Dispatch` | the form checks of each handler, the commands they build, and `bulletsToWatchText` |
| `Session` | the 250-line activity log |
| `Companion` | the class `Panel`: the panel's state, `connect`, `onDisconnected`, `disconnect` with the device's disconnect listeners, `sendCommand` and the command handlers |
| `Relay` | the relay: the token middleware, the schema, `clampBullet`, span extraction and the route |

The panel's handlers change state step by step, so they are methods of
`Companion.Panel`. A handler's whole effect on the log, the writes and the
status line is given by the pure function `Companion.Transmit`, whose
properties are proved as lemmas.

Parameters stand for what the browser or the network decides:

- whether Web Bluetooth exists;
- how each step of `connect` ends;
- whether a write succeeds;
- the answer to `confirm`;
- `gatt.connected`;
- the current local time and its locale text;
- the language model's two replies;
- `JSON.parse`.

`Companion.Panel.writes` is a model-only record of every text handed to
`writeValue`. It is the observable "what the watch was sent".

## Model

| member | source | states |
|---|---|---|
| Strings.IsSpace | server/index.js:35 | the `\s` class, which is also what `trim` removes: tab to carriage return, space, no-break space, the Unicode space separators, the line and paragraph separators and the byte-order mark; `Trim`, `TrimSlice` and `CollapseShape` state what it decides |
| Strings.Trim | src/App.jsx:175 | `trim`: empty exactly when the input is all whitespace; otherwise starts and ends with a non-space character; never longer than the input |
| Strings.TrimSlice | src/App.jsx:175 | what `trim` keeps is one contiguous slice of the input, and everything it drops is whitespace |
| Strings.TrimStartSuffix | server/index.js:35 | a helper of `Strings.Trim`: its leading half keeps a suffix and drops only whitespace |
| Strings.TrimEndPrefix | server/index.js:35 | a helper of `Strings.Trim`: its trailing half keeps a prefix and drops only whitespace |
| Strings.TrimEndAppendSpace | src/App.jsx:175 | a helper of `Strings.Trim`: whitespace appended to a text is exactly what the trailing half takes away again |
| Strings.TrimEndAppendVisible | src/App.jsx:175 | a helper of `Strings.Trim`: when the tail has a visible character, the trailing half trims only the tail |
| Strings.TrimAfterHead | src/App.jsx:175 | `trim` of a text opening with a head that begins and ends visibly keeps the head and trims only the end of the rest |
| Strings.TrimOfTrimmed | src/App.jsx:175 | trimming a trimmed string changes nothing |
| Strings.TrimKeepsVisible | src/App.jsx:231-232 | trimming removes whitespace only: every other character survives, in order |
| Strings.Decimal | src/App.jsx:15 | `String(n)`: a non-empty digit string without a leading zero, one digit exactly below 10 |
| Strings.DigitsValue | src/App.jsx:209 | unary `+` on a digit string, read as a decimal numeral; `DecimalValue` reads `String(n)` back as n and `DigitsBound` keeps k digits below 10^k |
| Strings.DecimalValue | src/App.jsx:209 | reading the numeral `String(n)` back with unary `+` gives `n` |
| Strings.DigitsBound | src/App.jsx:209 | a numeral of k digits is worth less than 10^k |
| Strings.Pad2 | src/App.jsx:14-16 | `pad2`: digits whose value is `n`; exactly two characters below 100, never fewer than two |
| Strings.Find | server/index.js:142 | the first occurrence of a character, or the end when there is none |
| Strings.Join | src/App.jsx:30 | `join`: the pieces with the separator between them; `SplitJoin` splits it back into the pieces and `JoinTrimEnd` states what `trim` does to its end |
| Strings.JoinTrimEnd | src/App.jsx:30 | when the last piece has a visible character, trimming the end of a join trims that last piece and nothing before it |
| Strings.SplitJoin | src/App.jsx:30 | splitting a join on its separator gives the parts back, when no part holds the separator |
| Session.Newest | src/App.jsx:93 | the kept window: the last 250 entries, or all of them when fewer, ending with the newest one; `NewestAt` gives each kept entry's position |
| Session.Pushed | src/App.jsx:90-95 | `pushLog`: the new line goes last; the log grows by one until it holds 250 lines, then stays at 250 |
| Session.NewestAbsorbs | src/App.jsx:93 | cutting to the newest 250 early changes nothing about the newest 250 later |
| Session.PushedAllKeepsNewest | src/App.jsx:90-95 | after any number of pushes, the log holds exactly the newest 250 lines ever pushed, in order |
| Session.PushedAllThenOne | src/App.jsx:90-95 | pushing a list of lines and then one more line is pushing the longer list |
| Session.TwoHundredSixtyPushes | src/App.jsx:93 | 260 pushes onto an empty log leave the last 250 lines |
| Wire.FormatDateTime | src/App.jsx:17-27 | `fmtProtocolDateTime`; its width is `FormatDateTimeWidth` and its read-back `DateTimeRoundTrip` |
| Wire.Encode | src/App.jsx:206-271 | the wire text each handler interpolates; `EncodeDecode` proves it readable for every unambiguous command |
| Wire.FormatDateTimeWidth | src/App.jsx:17-27 | `fmtProtocolDateTime` gives 19 characters for a four-digit year and two-digit fields |
| Wire.TimeRoundTrip | src/App.jsx:211 | the `TIME:h:m:s` payload splits back into the three numbers |
| Wire.DateTimeRoundTrip | src/App.jsx:17-27 | the `fmtProtocolDateTime` text reads back field by field |
| Wire.NoteRoundTrip | src/App.jsx:234 | `company\|text` splits back at the first '\|' when the company has no '\|' |
| Wire.EncodeDecode | src/App.jsx:206-271 | every command whose wire text is unambiguous reads back as itself |
| Wire.NoteSeparatorCollides | src/App.jsx:234 | a '\|' in the company gives two different notes one wire text |
| Dispatch.ParseTimeInput | src/App.jsx:207-209 | the time regex and unary `+` on its groups; `TimeTextParsed` states what it reads |
| Dispatch.TimeCommand | src/App.jsx:206-212 | `sendTime`: a command only for the `H:MM:SS` or `HH:MM:SS` shape with hour ≤ 23 and minute and second ≤ 59 |
| Dispatch.TimeInput | src/App.jsx:43-46 | the time field's text, with the hour padded or not; `TimeInputAccepted` proves every valid time typed so is accepted as itself |
| Dispatch.TimeInputAccepted | src/App.jsx:43-46 | every valid clock time, with or without a leading zero on the hour, is accepted as itself |
| Dispatch.TimeTextParsed | src/App.jsx:207-209 | an hour of one or two digits and two two-digit fields joined by ':' match the regex group by group |
| Dispatch.TimeOutOfRangeRefused | src/App.jsx:210 | a well-shaped time with a field out of range is refused |
| Dispatch.TimeExamples | src/App.jsx:206-212 | "07:05:09" is sent as `TIME:7:5:9`; "25:00:00" and "1:2" are refused |
| Dispatch.DateAndMinute | src/App.jsx:216 | the date and minute part of the datetime regex: sixteen characters, fields below 10000 and 100; `DateTimeCommandSpec` gives its exact shape and fields |
| Dispatch.DateTimeCommand | src/App.jsx:214-222 | `sendDateTime`: a command only for 16 or 19 characters; seconds default to 0; the command reads back unambiguously; `DateTimeCommandSpec` states exactly which inputs are accepted and with which fields |
| Dispatch.DateTimeCommandSpec | src/App.jsx:214-220 | a command exactly for inputs matching `^(\d{4})-(\d{2})-(\d{2})T(\d{2}):(\d{2})(?::(\d{2}))?$`, whose fields are the regex's digit groups (a year typed with leading zeros included), seconds 0 when absent |
| Dispatch.DateTimeTextAccepted | src/App.jsx:214-220 | any four-digit year text, leading zeros included, with `pad2` fields is accepted and read back field by field |
| Dispatch.DateTimeWrongSeparator | src/App.jsx:216-217 | "2024x01-01T10:00" is refused |
| Dispatch.DateTimeInput | src/App.jsx:48-58 | the `datetime-local` field's text, with or without seconds; `DateTimeInputAccepted` proves it is accepted with its own fields |
| Dispatch.DateTimeInputAccepted | src/App.jsx:48-58 | the panel's own datetime text is accepted and read back field by field |
| Dispatch.Required | src/App.jsx:231-233 | a field after `trim`: missing exactly when all whitespace; otherwise non-empty, trimmed, with the same visible characters |
| Dispatch.NoteCommand | src/App.jsx:230-237 | `addNote`: a note exactly when both fields have a visible character; both sent trimmed |
| Dispatch.EditCommand | src/App.jsx:239-246 | `editNote`: the same checks as a note, sent as an edit |
| Dispatch.StatusCommand | src/App.jsx:260-265 | `sendStatus`: a status exactly when the message has a visible character |
| Dispatch.ShowCommand | src/App.jsx:267-271 | `showCompanyOnWatch`: a show command exactly when the query has a visible character |
| Dispatch.HandlerWireIntact | src/App.jsx:175 | `sendCommand`'s trim leaves every handler's wire text unchanged, and the text reads back as the command |
| Dispatch.WireTrimmed | src/App.jsx:206-271 | every handler's wire text starts and ends with a non-space character |
| Dispatch.Marked | src/App.jsx:30 | one bullet as the watch shows it, "• " and the trimmed bullet; `WatchTextLines` reads it back |
| Dispatch.WatchText | src/App.jsx:29-31 | `bulletsToWatchText`; `WatchTextLines` and `WatchTextOfThree` state its lines |
| Dispatch.MarkedLines | src/App.jsx:30 | one `• ` line per bullet, in order |
| Dispatch.WatchTextLines | src/App.jsx:29-31 | `bulletsToWatchText` splits back into one marked line per bullet, when no bullet holds a line break |
| Dispatch.WatchTextOfThree | src/App.jsx:29-31 | three bullets give three marked lines joined by '\n'; no bullets give "" |
| Dispatch.AiCommands | src/App.jsx:322-336 | nothing for a missing result, empty company or no bullets; otherwise a note, then a show of the same company |
| Dispatch.MarkedTrimEnd | src/App.jsx:30 | at the end of a text, trimming keeps a marked bullet as it is, except that a blank bullet's "• " becomes "•" |
| Dispatch.NoteReceived | src/App.jsx:175 | `sendCommand`'s trim of a note trims only the end of its text, and the watch reads the note with that text |
| Dispatch.ShowReceived | src/App.jsx:175 | `sendCommand`'s trim of a show trims only the end of the query, and the watch reads that query |
| Dispatch.WatchTextReceived | src/App.jsx:29-31 | the watch text trimmed at its end splits into one marked line per bullet, a blank last bullet shortened to "•" |
| Dispatch.AiCommandsReadBack | src/App.jsx:322-336 | what the watch reads of the two texts after `sendCommand`'s trim: the note with the company and one marked line per bullet, a blank last bullet arriving as "•"; the show with the company less its trailing whitespace |
| Dispatch.WatchTextEndsVisible | src/App.jsx:29-31 | a watch text whose last bullet is not blank is left alone by trimming its end |
| Dispatch.AiCommandsSentIntact | src/App.jsx:322-336 | for a trimmed company and a non-blank last bullet, as the relay answers, the trim changes neither text, so the watch reads the note with exactly one marked line per bullet and the show as built |
| Dispatch.BlankLastBulletShortened | src/App.jsx:322-336 | for any first bullet `a` without a line break inside its trimmed text, the bullets `a` and " " are built as the lines `Marked(a)` and "• " but reach the watch as `Marked(a)` and "•": the trim of the whole text cuts the blank last bullet short |

| Companion.Transmit | src/App.jsx:169-187 | `sendCommand`'s effect on the log, the writes and the status line; `TransmitEffects` states it case by case |
| Companion.ConnectLines | src/App.jsx:97-151 | the lines one `connect` logs for each outcome, in order; `ConnectLog` proves they are what `Connect` pushes |
| Companion.ConnectedLog | src/App.jsx:97-151 | the log after `connect`, one push at a time; `ConnectLog` and `ConnectLogNewest` state it as the newest 250 lines of the old log and the connect lines |
| Companion.ConnectLog | src/App.jsx:97-151 | `connect` adds exactly the expected lines to the bounded log, in order, for every outcome |
| Companion.ConnectLogNewest | src/App.jsx:90-151 | after `connect`, a log within its bound holds the newest 250 lines of the old log followed by the connect lines |
| Companion.DisconnectLogNewest | src/App.jsx:153-167 | a `disconnect` with k listeners on the device leaves the newest 250 lines of the old log, the request and k disconnection lines: after a reconnect to the same watch, the line appears twice |
| Companion.TransmitEffects | src/App.jsx:169-187 | `sendCommand`: nothing without a characteristic or with blank text; otherwise one write of the trimmed text, "TX:" logged first, "ERR:" after a failed write, and the matching status line |
| Companion.TrimKeepsHead | src/App.jsx:175 | `trim` keeps a prefix that begins and ends with a non-space character |
| Companion.AiResultWrites | src/App.jsx:322-336 | with a characteristic bound, a relay result gives exactly two writes, the trimmed note and then the trimmed show, the note with its `NOTE:company\|` head intact |
| Companion.TwoWrites | src/App.jsx:330-335 | two non-blank sends write both texts trimmed, in order |
| Companion.Panel.constructor | src/App.jsx:34-81 | the initial state: offline, empty log, clock fields filled from the current time, other fields empty |
| Companion.Panel.PushLog | src/App.jsx:90-95 | the log becomes `Pushed(old log, line)` and stays within 250 lines |
| Companion.Panel.Fail | src/App.jsx:144-150 | the `catch`/`finally` of `connect`: "ERR:" logged, "Connection failed", not connected, not connecting |
| Companion.Panel.Connect | src/App.jsx:97-151 | without Web Bluetooth nothing changes; otherwise it ends not connecting, connected exactly when the characteristic was bound, with the log of `ConnectLog`; refs set before a failure stay set; once a device is chosen it gains one more disconnect listener, on top of the earlier ones when it is the same watch |
| Companion.Panel.Link | src/App.jsx:115-150 | the steps after the chooser: GATT server, then service and characteristic |
| Companion.Panel.Discover | src/App.jsx:119-150 | the steps after the GATT server: service, characteristic, notifications |
| Companion.Panel.Bind | src/App.jsx:124-143 | characteristic bound; the notification result logged, then "BLE: Connected" |
| Companion.Panel.OnDisconnected | src/App.jsx:153-159 | one listener run: logs "BLE: Disconnected", ends disconnected, clears the server and characteristic refs |
| Companion.Panel.GattServerDisconnected | src/App.jsx:113 | the device's disconnect event runs every listener `connect` added, logging the line once per listener; with no device bound nothing changes |
| Companion.Panel.Disconnect | src/App.jsx:161-167 | logs the request; only when a device is bound and its GATT server is connected does the teardown run every listener, logging "BLE: Disconnected" once for each |
| Companion.Panel.OnNotification | src/App.jsx:129-135 | the received text becomes `lastRx` and is logged with "RX: " |
| Companion.Panel.SendCommand | src/App.jsx:169-187 | the new log, writes and status line are `Transmit` of the old ones; the characteristic ref decides, never `connected` |
| Companion.Panel.SendTime | src/App.jsx:206-212 | sends exactly `TimeCommand`'s command, or nothing |
| Companion.Panel.SendDateTime | src/App.jsx:214-222 | sends exactly `DateTimeCommand`'s command, or nothing |
| Companion.Panel.SyncToWatch | src/App.jsx:224-228 | the date and time, then "STATUS:SYNCED " and the locale time, each through `sendCommand` |
| Companion.Panel.AddNote | src/App.jsx:230-237 | sends `NoteCommand`'s note; clears both fields exactly when a note was built |
| Companion.Panel.EditNote | src/App.jsx:239-246 | sends `EditCommand`'s edit; clears both fields exactly when an edit was built |
| Companion.Panel.DeleteCurrentNote | src/App.jsx:248-252 | sends "DELETE" only when confirmed |
| Companion.Panel.ClearAllNotes | src/App.jsx:254-258 | sends "CLEAR" only when confirmed |
| Companion.Panel.SendStatus | src/App.jsx:260-265 | sends `StatusCommand`'s status; clears the field exactly when one was built |
| Companion.Panel.ShowCompanyOnWatch | src/App.jsx:267-271 | sends `ShowCommand`'s command; keeps the field |
| Companion.Panel.SendRaw | src/App.jsx:622 | sends the raw field as typed, through `sendCommand`, then clears it |
| Companion.Panel.SendAiResultToWatch | src/App.jsx:322-336 | nothing when `AiCommands` gives no commands or while disconnected; otherwise its note, then its show, each through `sendCommand` |
| Relay.Collapse | server/index.js:35 | `replace(/\s+/g, " ")`: never longer; empty only for empty input; starts with whitespace exactly when the input does |
| Relay.CollapseShape | server/index.js:35 | collapsing leaves single spaces only and keeps every other character in order |
| Relay.CollapseOfSingleSpaced | server/index.js:35 | a single-spaced string is left unchanged |
| Relay.CollapseSeparates | server/index.js:35 | each whitespace run becomes exactly one space: the words on either side stay apart and are collapsed on their own |
| Relay.CollapseTwoWords | server/index.js:35 | "a \t\n b" collapses to "a b" |
| Relay.Take | server/index.js:35 | `slice(0, n)`: a prefix of the input, exactly n items when the input is longer, the whole input otherwise |
| Relay.ClampBullet | server/index.js:34-36 | `clampBullet`; `ClampBulletShape` and `ClampBulletFixed` state its properties |
| Relay.ClampBulletShape | server/index.js:34-36 | a clamped bullet is the first 88 characters of the collapsed and trimmed input, or all of it when shorter; no leading whitespace, single spaces only |
| Relay.ClampBulletFixed | server/index.js:34-36 | `clampBullet` keeps its input exactly when it is single-spaced, trimmed and at most 88 characters |
| Relay.ClampBulletCanEndInSpace | server/index.js:35 | the cut comes after the trim: an 87-character word and " b" clamp to a bullet ending in a space, and clamping again changes it |
| Relay.FindLast | server/index.js:142 | the last occurrence of a character, or none |
| Relay.ExtractSpan | server/index.js:142 | `text.match(/\{[\s\S]*\}/)`; `ExtractSpanSpec` states which span it returns |
| Relay.ExtractSpanSpec | server/index.js:142-143 | `/\{[\s\S]*\}/`: a match exactly when some '}' follows some '{'; it runs from the first '{' to the last '}' |
| Relay.AsString | server/index.js:30-31 | `z.string()`: a JSON string is accepted as its text, anything else is refused; `AsBullets` and `CheckSheetSpec` state what the schema accepts through it |
| Relay.AsBullets | server/index.js:31 | `z.array(z.string()).min(3).max(4)`: accepted exactly for 3 to 4 strings, read in order |
| Relay.CheckSheet | server/index.js:29-32 | `CheatSheet.safeParse`; `CheckSheetSpec` states what it accepts |
| Relay.CheckSheetSpec | server/index.js:29-32 | an accepted sheet is read off the two keys; every object, whatever other keys it has, whose company is a string of at least one character and whose bullets are 3 to 4 strings is accepted as exactly that sheet |
| Relay.Gate | server/index.js:14-23 | the middleware only ever answers 401 "Unauthorized" |
| Relay.ServerError | server/index.js:178-181 | the outer `catch`: 500 with a non-empty message |
| Relay.Falsy | server/index.js:149 | the JSON values `!json` treats as missing: null, false, 0 and ""; `FirstPassDecides` and `FalsyFirstPassRetries` state both sides of the retry |
| Relay.FirstPass | server/index.js:140-149 | the first reply's span parsed, a syntax error swallowed into none; `FirstPassDecides` states its role |
| Relay.Respond | server/index.js:169-177 | the shape check and the response; `RespondSpec` states it |
| Relay.Route | server/index.js:14-38 | the middleware, then the handler; `RouteUnauthorized` and `RouteBadRequest` state its status codes |
| Relay.Cheatsheet | server/index.js:38-182 | the handler answers only 200, 400 or 500 |
| Relay.RouteUnauthorized | server/index.js:14-23 | 401 exactly when a non-empty token is set and the header differs from it |
| Relay.RouteBadRequest | server/index.js:40-51 | past the gate, 400 exactly when there is no image and the hint is blank after `trim` |
| Relay.FirstPassDecides | server/index.js:140-149 | when the first reply holds usable JSON, the second reply has no effect on the answer |
| Relay.FalsyFirstPassRetries | server/index.js:140-149 | a falsy first parse is answered exactly as a first reply with no `{…}` span, which goes on to the second request |
| Relay.ServerErrors | server/index.js:164-172 | a thrown API error gives its message (or "Server error"); no span in the second reply gives "AI returned unexpected format." |
| Relay.RespondSpec | server/index.js:169-177 | 200 exactly for an accepted sheet: the trimmed company and one clamped bullet per input bullet, in order, so `slice(0, 4)` drops none; otherwise the format 500 |
| Relay.BlankCompanyAccepted | server/index.js:169-177 | `min(1)` is checked before the trim: a company of one space is accepted and answered as "" |

## Left out

- Web Bluetooth, `TextEncoder`/`TextDecoder`, `fetch` and the OpenAI client are I/O. Their outcomes are parameters, and bytes on the air are not modelled: a write is the text handed to `writeValue`.
- `alert` is not modelled: a handler that alerts returns without a write, which the model states.
- Asynchrony and interleaving are not modelled. Each handler runs to completion, and an `await`ed `sendCommand` is a sequential call.
- React state batching is not modelled. A state update is an assignment that is seen at once.
- Log timestamps (`t: new Date()`) are not modelled: the log holds the lines only.
- `err?.message || String(err)` is not modelled: a failure carries the text that ends up in the log.
- `generateAiNote`, `onPickImage`, `clearAi`, `setNowTime`, `setNowDateTime`, tab switching and all rendering are outside the modelled core. `aiResult` is a field the model reads.
- The UI disables buttons, for example the raw Send button while disconnected. These `disabled` guards are not modelled: a handler may be called in any state, and `sendCommand`'s own checks still apply.
- Companion.Panel.SendDateTime: does not model the `new Date(...)` round trip at src/App.jsx:219; the parsed fields are formatted as they are. JavaScript makes a difference in two ways. Fields outside the date-time string format's ranges (month 13, day 32) give an Invalid Date, which `fmtProtocolDateTime` writes as "NaN-NaN-NaN NaN:NaN:NaN". Hour 24 is valid only as `T24:00` or `T24:00:00`; with a non-zero minute or second it also gives an Invalid Date. Accepted but non-existent values are shifted: `T24:00` moves to midnight of the next day, a day past a short month's end moves into the next month, and a local time skipped by a daylight-saving change moves forward.
- Companion.Panel.Connect: only the listeners on the bound device are counted. When the chooser returns a different watch, the listeners left on the earlier one are not modelled; if that watch disconnects later they still log and clear the current refs.
- Companion.Panel.OnNotification: one run per notification. `connect` also adds a fresh notification listener each time; if the browser hands back the same characteristic object after a reconnect, each earlier listener logs its own "RX: " line too, which is not modelled.
- Companion.Panel.SyncToWatch: the current time arrives as an already split `DateTime`, with the month counted from 1. `getMonth() + 1` is therefore not modelled.
- Companion.Panel.constructor: the same applies to the initial clock fields.
- String lengths count code points; JavaScript counts UTF-16 code units. `clampBullet`'s 88 and zod's `min(1)` can differ from the model for characters outside the Basic Multilingual Plane.
- JSON numbers are modelled as reals. `JSON.parse` itself, the OpenAI request bodies, the prompt text, `multer`, the image upload and `/health` are not modelled. The parser is a function parameter, and "an image was uploaded" is a boolean.
- Relay.Cheatsheet: `companyHint` is taken to be a string or absent. A form that repeats the field, so that `multer` delivers an array, is not modelled.
- Relay.Cheatsheet: the first reply's text is one string. How `output_text` is assembled from `resp.output` is not modelled.
- The watch firmware is not part of this model. `Wire.Decode` is a reader written here only to show which commands the wire text carries unambiguously.
- The note wire format does not escape '|'. A company holding '|' makes a note ambiguous (`Wire.NoteSeparatorCollides`), and a raw command can imitate any other command.
