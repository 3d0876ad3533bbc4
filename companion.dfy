/**
 * The companion panel's state and its handlers (src/App.jsx): the link to the
 * watch (`connect`, `onDisconnected`, `disconnect`), the one write path
 * (`sendCommand`), the activity log, and the buttons that send commands.
 *
 * What the browser decides (whether Web Bluetooth exists, how each step of
 * connecting ends, whether a write succeeds, the answer to `confirm`, the
 * transport's `gatt.connected`) arrives as a method parameter.
 */
module Companion {
  import opened Wrappers
  import opened Strings
  import opened Wire
  import opened Dispatch
  import opened Session

  /** How one `writeValue` ends; a failure carries the error's message. */
  datatype WriteOutcome = Written | WriteFailed(message: string)

  /** How `connect`'s chain of browser calls ends; each failure carries the error's message. */
  datatype ConnectOutcome =
    | ChooserFailed(message: string)          // requestDevice rejected: chooser cancelled, no device
    | GattFailed(message: string)             // device.gatt.connect rejected
    | ServiceFailed(message: string)          // getPrimaryService rejected
    | CharacteristicFailed(message: string)   // getCharacteristic rejected
    | Linked(notifications: bool)             // characteristic bound; whether startNotifications succeeded

  function ErrLine(message: string): string
  {
    "ERR: " + message
  }

  /** The log lines one `connect` call adds, in order. */
  function ConnectLines(outcome: ConnectOutcome): seq<string>
  {
    ["UI: Connect"] +
    match outcome
    case Linked(true) => ["BLE: Notifications enabled", "BLE: Connected"]
    case Linked(false) => ["BLE: Notifications not enabled (writes still OK)", "BLE: Connected"]
    case ChooserFailed(m) => [ErrLine(m)]
    case GattFailed(m) => [ErrLine(m)]
    case ServiceFailed(m) => [ErrLine(m)]
    case CharacteristicFailed(m) => [ErrLine(m)]
  }

  /** The log lines `connect` pushes after "UI: Connect", one push at a time. */
  function LinkLog(log: seq<string>, outcome: ConnectOutcome): seq<string>
  {
    match outcome
    case Linked(n) =>
      Pushed(Pushed(log, if n then "BLE: Notifications enabled" else "BLE: Notifications not enabled (writes still OK)"),
             "BLE: Connected")
    case _ => Pushed(log, ErrLine(outcome.message))
  }

  /** The log after `connect`, one push at a time. */
  function ConnectedLog(log: seq<string>, outcome: ConnectOutcome): seq<string>
  {
    LinkLog(Pushed(log, "UI: Connect"), outcome)
  }

  /**
   * After `connect`, a log within its bound holds the newest 250 lines of
   * the old log followed by the lines `ConnectLines` lists.
   */
  lemma ConnectLogNewest(log: seq<string>, outcome: ConnectOutcome)
    requires |log| <= LogCapacity
    ensures ConnectedLog(log, outcome) == Newest(log + ConnectLines(outcome))
  {
    ConnectLog(log, outcome);
    PushedAllKeepsNewest(log, ConnectLines(outcome));
  }

  /** `connect` adds exactly the lines `ConnectLines` lists, in order, to the bounded log. */
  lemma ConnectLog(log: seq<string>, outcome: ConnectOutcome)
    ensures ConnectedLog(log, outcome) == PushedAll(log, ConnectLines(outcome))
  {
    var lines := ConnectLines(outcome);
    var begun := Pushed(log, lines[0]);
    assert PushedAll(log, lines) == PushedAll(begun, lines[1..]);
    var rest := lines[1..];
    var next := Pushed(begun, rest[0]);
    assert PushedAll(begun, rest) == PushedAll(next, rest[1..]);
    if outcome.Linked? {
      var last := rest[1..];
      assert last == ["BLE: Connected"];
      assert PushedAll(next, last) == PushedAll(Pushed(next, last[0]), last[1..]);
      assert last[1..] == [];
    } else {
      assert rest[1..] == [];
    }
  }

  /**
   * One `disconnect` with `k` listeners on the device: the log holds the
   * newest 250 lines of the old log, the request and `k` disconnection
   * lines, so the last `k` lines all say "BLE: Disconnected". After connect,
   * disconnect and connect again to the same watch, `k` is 2.
   */
  lemma DisconnectLogNewest(log: seq<string>, k: nat)
    requires |log| <= LogCapacity && k <= LogCapacity
    ensures var r := PushedAll(log, ["UI: Disconnect"] + Repeated("BLE: Disconnected", k));
      r == Newest(log + (["UI: Disconnect"] + Repeated("BLE: Disconnected", k))) &&
      |r| >= k && forall i :: |r| - k <= i < |r| ==> r[i] == "BLE: Disconnected"
  {
    var lines := ["UI: Disconnect"] + Repeated("BLE: Disconnected", k);
    PushedAllKeepsNewest(log, lines);
    EndsWithRepeated(log, "UI: Disconnect", "BLE: Disconnected", k);
    NewestKeepsTail(log + lines, "BLE: Disconnected", k);
  }

  lemma EndsWithRepeated(x: seq<string>, first: string, line: string, k: nat)
    ensures var y := x + ([first] + Repeated(line, k));
      |y| >= k && forall i :: |y| - k <= i < |y| ==> y[i] == line
  {
    var tail := [first] + Repeated(line, k);
    var y := x + tail;
    forall i | |y| - k <= i < |y|
      ensures y[i] == line
    {
      assert y[i] == tail[i - |x|];
    }
  }

  /** The newest 250 entries keep a tail of up to 250 equal lines. */
  lemma NewestKeepsTail(x: seq<string>, line: string, k: nat)
    requires k <= LogCapacity && |x| >= k
    requires forall i :: |x| - k <= i < |x| ==> x[i] == line
    ensures var r := Newest(x); |r| >= k && forall i :: |r| - k <= i < |r| ==> r[i] == line
  {
    var r := Newest(x);
    forall i | |r| - k <= i < |r|
      ensures r[i] == line
    {
      NewestAt(x, i);
    }
  }

  /** The part of the panel's state that sending touches: the log, what reached the characteristic, the status line. */
  datatype Effects = Effects(log: seq<string>, writes: seq<string>, statusLine: string)

  /** What `sendCommand` does to the log, the writes and the status line. */
  function Transmit(e: Effects, channel: bool, cmd: string, w: WriteOutcome): Effects
  {
    var t := Trim(cmd);
    if !channel || t == [] then e
    else
      var sent := Pushed(e.log, "TX: " + t);
      match w
      case Written => Effects(sent, e.writes + [t], "Connected ✅")
      case WriteFailed(m) => Effects(Pushed(sent, ErrLine(m)), e.writes + [t], "Send failed")
  }

  /**
   * `sendCommand`: with no bound characteristic, or nothing but whitespace to
   * send, nothing at all happens. Otherwise exactly one write, of the trimmed
   * text, logged with "TX: " before it is attempted; a failed write adds an
   * "ERR: " line after it, and the status line tells the two apart.
   */
  lemma TransmitEffects(e: Effects, channel: bool, cmd: string, w: WriteOutcome)
    ensures var r := Transmit(e, channel, cmd, w);
      (!channel || AllSpace(cmd) ==> r == e) &&
      (channel && !AllSpace(cmd) ==>
        r.writes == e.writes + [Trim(cmd)] && Trim(cmd) != [] && Trimmed(Trim(cmd)) &&
        r.log == (match w
                  case Written => Pushed(e.log, "TX: " + Trim(cmd))
                  case WriteFailed(m) => Pushed(Pushed(e.log, "TX: " + Trim(cmd)), ErrLine(m))) &&
        r.statusLine == if w.Written? then "Connected ✅" else "Send failed")
  {
  }

  /**
   * `trim` keeps any prefix that begins and ends with a non-space character.
   */
  lemma TrimKeepsHead(s: string, head: string)
    requires head != [] && head <= s && !IsSpace(head[0]) && !IsSpace(head[|head| - 1])
    ensures head <= Trim(s)
  {
    var k := TrimSlice(s);
    var r := Trim(s);
    SpaceWithin(s, 0, k, 0);
    SpaceWithin(s, k + |r|, |s|, |head| - 1);
    assert r[..|head|] == s[..|head|];
  }

  /**
   * With the characteristic bound, sending a relay result writes exactly two
   * texts, the trimmed note first, then the trimmed show: the note keeps
   * "NOTE:", the company and the '|' intact. `AiCommandsReadBack` states
   * what the watch reads of them.
   */
  lemma AiResultWrites(e: Effects, n: AiNote, w1: WriteOutcome, w2: WriteOutcome)
    requires n.company != [] && n.bullets != []
    ensures var cs := AiCommands(Some(n));
      var r := Transmit(Transmit(e, true, Encode(cs[0]), w1), true, Encode(cs[1]), w2);
      r.writes == e.writes + [Trim(Encode(cs[0])), Trim(Encode(cs[1]))] &&
      "NOTE:" + n.company + "|" <= r.writes[|e.writes|]
  {
    var cs := AiCommands(Some(n));
    AiWireHeads(n);
    TwoWrites(e, Encode(cs[0]), Encode(cs[1]), w1, w2);
  }

  /** The adapter's two wire texts open with a visible character, and the note's head survives the trim. */
  lemma AiWireHeads(n: AiNote)
    requires n.company != [] && n.bullets != []
    ensures var cs := AiCommands(Some(n));
      Encode(cs[0]) != [] && Encode(cs[1]) != [] && !IsSpace(Encode(cs[0])[0]) && !IsSpace(Encode(cs[1])[0]) &&
      "NOTE:" + n.company + "|" <= Trim(Encode(cs[0]))
  {
    var cs := AiCommands(Some(n));
    assert cs == [AddNote(n.company, WatchText(n.bullets)), ShowCompany(n.company)];
    var note := Encode(cs[0]);
    var head := "NOTE:" + n.company + "|";
    assert note == head + WatchText(n.bullets);
    assert head[0] == 'N' && head[|head| - 1] == '|';
    TrimKeepsHead(note, head);
    assert Encode(cs[1])[0] == 'S';
  }

  /** Two sends over a bound characteristic, neither of them blank, write both texts trimmed, in order. */
  lemma TwoWrites(e: Effects, a: string, b: string, w1: WriteOutcome, w2: WriteOutcome)
    requires a != [] && b != [] && !IsSpace(a[0]) && !IsSpace(b[0])
    ensures Transmit(Transmit(e, true, a, w1), true, b, w2).writes == e.writes + [Trim(a), Trim(b)]
  {
    assert !AllSpace(a) && !AllSpace(b);
    TransmitEffects(e, true, a, w1);
    TransmitEffects(Transmit(e, true, a, w1), true, b, w2);
  }

  class Panel {
    const canUseWebBluetooth: bool

    var connected: bool
    var connecting: bool
    var statusLine: string
    var lastRx: string
    var log: seq<string>

    // Whether deviceRef, serverRef and charRef hold an object.
    var deviceBound: bool
    var serverBound: bool
    var charBound: bool

    /**
     * How many `onDisconnected` listeners the bound device holds: `connect`
     * adds one every time the chooser returns a device, and nothing removes them.
     */
    var disconnectListeners: nat

    /** Every text handed to the characteristic's `writeValue`, oldest first: what the watch was sent. */
    var writes: seq<string>

    // Form fields the handlers read.
    var timeStr: string
    var dtLocal: string
    var company: string
    var noteText: string
    var editCompany: string
    var editText: string
    var statusMsg: string
    var searchCompany: string
    var rawCmd: string
    var aiResult: Option<AiNote>

    /**
     * The log stays within its bound; a characteristic is only bound with its
     * server, a server only with its device; a bound device holds at least one
     * disconnect listener, and no listener exists before a device is bound.
     */
    ghost predicate Valid()
      reads this`log, this`charBound, this`serverBound, this`deviceBound, this`disconnectListeners
    {
      |log| <= LogCapacity && (charBound ==> serverBound) && (serverBound ==> deviceBound) &&
      (deviceBound <==> disconnectListeners > 0)
    }

    function Observed(): Effects
      reads this`log, this`writes, this`statusLine
    {
      Effects(log, writes, statusLine)
    }

    /** The panel as first rendered at local time `now`: offline, empty log, clock fields filled from `now`. */
    constructor (bluetooth: bool, now: DateTime)
      ensures Valid()
      ensures canUseWebBluetooth == bluetooth
      ensures !connected && !connecting && statusLine == "Not connected" && lastRx == "(none)" && log == []
      ensures !deviceBound && !serverBound && !charBound && disconnectListeners == 0 && writes == []
      ensures timeStr == TimeInput(now.hour, now.minute, now.second, true) && dtLocal == DateTimeInput(now, true)
      ensures company == noteText == editCompany == editText == statusMsg == searchCompany == rawCmd == ""
      ensures aiResult == None
    {
      canUseWebBluetooth := bluetooth;
      connected, connecting := false, false;
      statusLine, lastRx, log := "Not connected", "(none)", [];
      deviceBound, serverBound, charBound := false, false, false;
      disconnectListeners := 0;
      writes := [];
      timeStr := TimeInput(now.hour, now.minute, now.second, true);
      dtLocal := DateTimeInput(now, true);
      company, noteText, editCompany, editText := "", "", "", "";
      statusMsg, searchCompany, rawCmd := "", "", "";
      aiResult := None;
    }

    method PushLog(line: string)
      requires |log| <= LogCapacity
      modifies this`log
      ensures log == Pushed(old(log), line) && |log| <= LogCapacity
    {
      var next := log + [line];
      if |next| > LogCapacity {
        next := next[|next| - LogCapacity..];
      }
      log := next;
    }

    /** The `catch` and `finally` of `connect`. */
    method Fail(message: string)
      requires Valid()
      modifies this`log, this`statusLine, this`connected, this`connecting
      ensures Valid()
      ensures log == Pushed(old(log), ErrLine(message)) && statusLine == "Connection failed" && !connected && !connecting
    {
      PushLog(ErrLine(message));
      statusLine := "Connection failed";
      connected := false;
      connecting := false;
    }

    /**
     * `connect`: without Web Bluetooth nothing changes. Otherwise it always
     * ends with `connecting` false; it ends connected exactly when the
     * characteristic was bound, whether or not notifications could be enabled;
     * a failure logs "ERR: " and leaves the panel disconnected. The refs set
     * before a failing step stay set, and a failure never clears a
     * characteristic bound earlier. Once the chooser returns a device, one
     * more disconnect listener is added: on top of the earlier ones when
     * `sameDevice` says it is the device already bound, otherwise as the new
     * device's first.
     */
    method Connect(outcome: ConnectOutcome, sameDevice: bool)
      requires Valid()
      modifies this`connecting, this`statusLine, this`log, this`connected
      modifies this`deviceBound, this`serverBound, this`charBound, this`disconnectListeners
      ensures Valid()
      ensures !canUseWebBluetooth ==> unchanged(this)
      ensures canUseWebBluetooth ==> !connecting && connected == outcome.Linked?
      ensures canUseWebBluetooth ==> log == ConnectedLog(old(log), outcome)
      ensures canUseWebBluetooth ==> statusLine == if outcome.Linked? then "Connected ✅" else "Connection failed"
      ensures canUseWebBluetooth ==>
        deviceBound == (old(deviceBound) || !outcome.ChooserFailed?) &&
        serverBound == (old(serverBound) || !(outcome.ChooserFailed? || outcome.GattFailed?)) &&
        charBound == (old(charBound) || outcome.Linked?)
      ensures canUseWebBluetooth ==>
        disconnectListeners == if outcome.ChooserFailed? then old(disconnectListeners)
                               else if old(deviceBound) && sameDevice then old(disconnectListeners) + 1
                               else 1
    {
      if !canUseWebBluetooth {
        return;
      }
      connecting := true;
      statusLine := "Opening Bluetooth chooser…";
      PushLog("UI: Connect");
      if outcome.ChooserFailed? {
        Fail(outcome.message);
        return;
      }
      disconnectListeners := if deviceBound && sameDevice then disconnectListeners + 1 else 1;
      deviceBound := true;
      statusLine := "Connecting…";
      Link(outcome);
    }

    /** The steps of `connect` once a device was chosen: GATT server, service, characteristic, notifications. */
    method Link(outcome: ConnectOutcome)
      requires Valid() && deviceBound && !outcome.ChooserFailed?
      modifies this`connecting, this`statusLine, this`log, this`connected, this`serverBound, this`charBound
      ensures Valid()
      ensures !connecting && connected == outcome.Linked?
      ensures log == LinkLog(old(log), outcome)
      ensures statusLine == if outcome.Linked? then "Connected ✅" else "Connection failed"
      ensures serverBound == (old(serverBound) || !outcome.GattFailed?)
      ensures charBound == (old(charBound) || outcome.Linked?)
    {
      if outcome.GattFailed? {
        Fail(outcome.message);
        return;
      }
      serverBound := true;
      statusLine := "Getting service…";
      Discover(outcome);
    }

    /** The steps of `connect` once the GATT server is connected: service, characteristic, notifications. */
    method Discover(outcome: ConnectOutcome)
      requires Valid() && serverBound && !outcome.ChooserFailed? && !outcome.GattFailed?
      modifies this`connecting, this`statusLine, this`log, this`connected, this`charBound
      ensures Valid()
      ensures !connecting && connected == outcome.Linked?
      ensures log == LinkLog(old(log), outcome)
      ensures statusLine == if outcome.Linked? then "Connected ✅" else "Connection failed"
      ensures charBound == (old(charBound) || outcome.Linked?)
    {
      if outcome.ServiceFailed? {
        Fail(outcome.message);
        return;
      }
      statusLine := "Getting characteristic…";
      if outcome.CharacteristicFailed? {
        Fail(outcome.message);
        return;
      }
      Bind(outcome.notifications);
    }

    /** The end of `connect` once the characteristic is in hand: the notification attempt, then connected. */
    method Bind(notifications: bool)
      requires Valid() && serverBound
      modifies this`log, this`statusLine, this`connected, this`connecting, this`charBound
      ensures Valid()
      ensures log == Pushed(Pushed(old(log), if notifications then "BLE: Notifications enabled"
                                             else "BLE: Notifications not enabled (writes still OK)"), "BLE: Connected")
      ensures charBound && connected && !connecting && statusLine == "Connected ✅"
    {
      charBound := true;
      if notifications {
        PushLog("BLE: Notifications enabled");
      } else {
        PushLog("BLE: Notifications not enabled (writes still OK)");
      }
      connected := true;
      statusLine := "Connected ✅";
      PushLog("BLE: Connected");
      connecting := false;
    }

    /**
     * One run of the listener `onDisconnected`, from any state: logs
     * "BLE: Disconnected", ends connected and clears the server and characteristic refs. The device ref
     * and `connecting` are left as they were.
     */
    method OnDisconnected()
      requires Valid()
      modifies this`log, this`statusLine, this`connected, this`serverBound, this`charBound
      ensures Valid()
      ensures log == Pushed(old(log), "BLE: Disconnected") && statusLine == "Disconnected"
      ensures !connected && !serverBound && !charBound
    {
      PushLog("BLE: Disconnected");
      statusLine := "Disconnected";
      connected := false;
      serverBound := false;
      charBound := false;
    }

    /**
     * The device's `gattserverdisconnected` event: every listener `connect`
     * added runs `onDisconnected` in turn, so "BLE: Disconnected" is logged
     * once per listener. Without a bound device there is no listener and
     * nothing changes.
     */
    method GattServerDisconnected()
      requires Valid()
      modifies this`log, this`statusLine, this`connected, this`serverBound, this`charBound
      ensures Valid()
      ensures log == PushedAll(old(log), Repeated("BLE: Disconnected", disconnectListeners))
      ensures deviceBound ==> statusLine == "Disconnected" && !connected && !serverBound && !charBound
      ensures !deviceBound ==>
        statusLine == old(statusLine) && connected == old(connected) && serverBound == old(serverBound) && charBound == old(charBound)
    {
      var i := 0;
      while i < disconnectListeners
        invariant 0 <= i <= disconnectListeners
        invariant Valid()
        invariant log == PushedAll(old(log), Repeated("BLE: Disconnected", i))
        invariant i > 0 ==> statusLine == "Disconnected" && !connected && !serverBound && !charBound
        invariant i == 0 ==>
          statusLine == old(statusLine) && connected == old(connected) && serverBound == old(serverBound) && charBound == old(charBound)
      {
        PushedAllThenOne(old(log), Repeated("BLE: Disconnected", i), "BLE: Disconnected");
        OnDisconnected();
        i := i + 1;
      }
    }

    /**
     * `disconnect`: logs the request; when a device is bound and its GATT
     * server reports itself connected, the teardown raises the device's
     * disconnect event, and every listener on it runs. Otherwise nothing
     * else changes.
     */
    method Disconnect(gattConnected: bool)
      requires Valid()
      modifies this`log, this`statusLine, this`connected, this`serverBound, this`charBound
      ensures Valid()
      ensures old(deviceBound) && gattConnected ==>
        log == PushedAll(old(log), ["UI: Disconnect"] + Repeated("BLE: Disconnected", disconnectListeners)) &&
        statusLine == "Disconnected" && !connected && !serverBound && !charBound
      ensures !(old(deviceBound) && gattConnected) ==>
        log == Pushed(old(log), "UI: Disconnect") && statusLine == old(statusLine) &&
        connected == old(connected) && serverBound == old(serverBound) && charBound == old(charBound)
    {
      PushLog("UI: Disconnect");
      if deviceBound && gattConnected {
        GattServerDisconnected();
        assert (["UI: Disconnect"] + Repeated("BLE: Disconnected", disconnectListeners))[1..] ==
          Repeated("BLE: Disconnected", disconnectListeners);
      }
    }

    /** The notification listener: the text received becomes `lastRx` and is logged with "RX: ". */
    method OnNotification(text: string)
      requires Valid()
      modifies this`lastRx, this`log
      ensures Valid()
      ensures lastRx == text && log == Pushed(old(log), "RX: " + text)
    {
      lastRx := text;
      PushLog("RX: " + text);
    }

    /** `sendCommand`; it consults the characteristic ref only, never `connected`. */
    method SendCommand(cmd: string, w: WriteOutcome)
      requires Valid()
      modifies this`log, this`writes, this`statusLine
      ensures Valid()
      ensures Observed() == Transmit(old(Observed()), old(charBound), cmd, w)
    {
      if !charBound {
        return;
      }
      var trimmed := Trim(cmd);
      if trimmed == [] {
        return;
      }
      PushLog("TX: " + trimmed);
      statusLine := "Sending…";
      writes := writes + [trimmed];
      match w {
        case Written =>
          statusLine := "Connected ✅";
        case WriteFailed(m) =>
          PushLog(ErrLine(m));
          statusLine := "Send failed";
      }
    }

    /** `sendTime`: a command only for a valid "H:MM:SS" or "HH:MM:SS" field. */
    method SendTime(w: WriteOutcome)
      requires Valid()
      modifies this`log, this`writes, this`statusLine
      ensures Valid()
      ensures var c := TimeCommand(old(timeStr));
        Observed() == if c.None? then old(Observed())
                      else Transmit(old(Observed()), old(charBound), TimeWire(c.value.hour, c.value.minute, c.value.second), w)
    {
      var c := TimeCommand(timeStr);
      if c.Some? {
        SendCommand(TimeWire(c.value.hour, c.value.minute, c.value.second), w);
      }
    }

    /** `sendDateTime`: a command only for a well-formed `datetime-local` field. */
    method SendDateTime(w: WriteOutcome)
      requires Valid()
      modifies this`log, this`writes, this`statusLine
      ensures Valid()
      ensures var c := DateTimeCommand(old(dtLocal));
        Observed() == if c.None? then old(Observed())
                      else Transmit(old(Observed()), old(charBound), DateTimeWire(c.value.at), w)
    {
      var c := DateTimeCommand(dtLocal);
      if c.Some? {
        SendCommand(DateTimeWire(c.value.at), w);
      }
    }

    /** `syncToWatch`: the date and time `now`, then a status naming the locale's time text. */
    method SyncToWatch(now: DateTime, localeTime: string, w1: WriteOutcome, w2: WriteOutcome)
      requires Valid()
      modifies this`log, this`writes, this`statusLine
      ensures Valid()
      ensures Observed() == Transmit(Transmit(old(Observed()), old(charBound), DateTimeWire(now), w1),
                                     charBound, StatusWire("SYNCED " + localeTime), w2)
    {
      SendCommand(DateTimeWire(now), w1);
      SendCommand(StatusWire("SYNCED " + localeTime), w2);
    }

    /** `addNote`: once a note was built, both form fields are cleared, whether or not it could be sent. */
    method AddNote(w: WriteOutcome)
      requires Valid()
      modifies this`log, this`writes, this`statusLine, this`company, this`noteText
      ensures Valid()
      ensures var c := NoteCommand(old(company), old(noteText));
        Observed() == (if c.None? then old(Observed())
                       else Transmit(old(Observed()), old(charBound), NoteWire(c.value.company, c.value.text), w)) &&
        (if c.Some? then company == "" && noteText == "" else company == old(company) && noteText == old(noteText))
    {
      var c := NoteCommand(company, noteText);
      if c.None? {
        return;
      }
      SendCommand(NoteWire(c.value.company, c.value.text), w);
      company := "";
      noteText := "";
    }

    /** `editNote`: once an edit was built, both form fields are cleared, whether or not it could be sent. */
    method EditNote(w: WriteOutcome)
      requires Valid()
      modifies this`log, this`writes, this`statusLine, this`editCompany, this`editText
      ensures Valid()
      ensures var c := EditCommand(old(editCompany), old(editText));
        Observed() == (if c.None? then old(Observed())
                       else Transmit(old(Observed()), old(charBound), EditWire(c.value.company, c.value.text), w)) &&
        (if c.Some? then editCompany == "" && editText == "" else editCompany == old(editCompany) && editText == old(editText))
    {
      var c := EditCommand(editCompany, editText);
      if c.None? {
        return;
      }
      SendCommand(EditWire(c.value.company, c.value.text), w);
      editCompany := "";
      editText := "";
    }

    /** `deleteCurrentNote`: sent only when the user confirms. */
    method DeleteCurrentNote(confirmed: bool, w: WriteOutcome)
      requires Valid()
      modifies this`log, this`writes, this`statusLine
      ensures Valid()
      ensures Observed() == if confirmed then Transmit(old(Observed()), old(charBound), "DELETE", w) else old(Observed())
    {
      if confirmed {
        SendCommand("DELETE", w);
      }
    }

    /** `clearAllNotes`: sent only when the user confirms. */
    method ClearAllNotes(confirmed: bool, w: WriteOutcome)
      requires Valid()
      modifies this`log, this`writes, this`statusLine
      ensures Valid()
      ensures Observed() == if confirmed then Transmit(old(Observed()), old(charBound), "CLEAR", w) else old(Observed())
    {
      if confirmed {
        SendCommand("CLEAR", w);
      }
    }

    /** `sendStatus`: once a status was built, the field is cleared. */
    method SendStatus(w: WriteOutcome)
      requires Valid()
      modifies this`log, this`writes, this`statusLine, this`statusMsg
      ensures Valid()
      ensures var c := StatusCommand(old(statusMsg));
        Observed() == (if c.None? then old(Observed())
                       else Transmit(old(Observed()), old(charBound), StatusWire(c.value.message), w)) &&
        statusMsg == if c.Some? then "" else old(statusMsg)
    {
      var c := StatusCommand(statusMsg);
      if c.None? {
        return;
      }
      SendCommand(StatusWire(c.value.message), w);
      statusMsg := "";
    }

    /** `showCompanyOnWatch`: the search field is kept. */
    method ShowCompanyOnWatch(w: WriteOutcome)
      requires Valid()
      modifies this`log, this`writes, this`statusLine
      ensures Valid()
      ensures var c := ShowCommand(old(searchCompany));
        Observed() == if c.None? then old(Observed())
                      else Transmit(old(Observed()), old(charBound), ShowWire(c.value.query), w)
    {
      var c := ShowCommand(searchCompany);
      if c.Some? {
        SendCommand(ShowWire(c.value.query), w);
      }
    }

    /** The raw command button: the field goes to `sendCommand` as typed and is then cleared. */
    method SendRaw(w: WriteOutcome)
      requires Valid()
      modifies this`log, this`writes, this`statusLine, this`rawCmd
      ensures Valid()
      ensures Observed() == Transmit(old(Observed()), old(charBound), old(rawCmd), w) && rawCmd == ""
    {
      SendCommand(rawCmd, w);
      rawCmd := "";
    }

    /**
     * `sendAiResultToWatch`: nothing without a result holding a company and
     * bullets, nothing while not connected; otherwise the note, then the show
     * command, each through `sendCommand`.
     */
    method SendAiResultToWatch(w1: WriteOutcome, w2: WriteOutcome)
      requires Valid()
      modifies this`log, this`writes, this`statusLine
      ensures Valid()
      ensures var cs := AiCommands(old(aiResult));
        Observed() ==
        if cs == [] || !old(connected) then old(Observed())
        else Transmit(Transmit(old(Observed()), old(charBound), Encode(cs[0]), w1), old(charBound), Encode(cs[1]), w2)
    {
      var cs := AiCommands(aiResult);
      if cs == [] {
        return;
      }
      if !connected {
        return;
      }
      SendCommand(Encode(cs[0]), w1);
      SendCommand(Encode(cs[1]), w2);
    }
  }
}
