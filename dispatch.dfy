/**
 * The checks the panel's command handlers (src/App.jsx) make on their form
 * fields before anything is sent, and the command each one builds. `None`
 * is the handler's early return (an alert, or silence).
 */
module Dispatch {
  import opened Wrappers
  import opened Strings
  import opened Wire

  // ----- sendTime -----

  /** The time regex `^(\d{1,2}):(\d{2}):(\d{2})$` with an hour of `k` digits. */
  predicate TimeShape(s: string, k: nat)
  {
    |s| == k + 6 && AllDigits(s[..k]) && s[k] == ':' && AllDigits(s[k + 1..k + 3]) &&
    s[k + 3] == ':' && AllDigits(s[k + 4..])
  }

  /** The regex match and the unary `+` on each group. */
  function ParseTimeInput(s: string): Option<(nat, nat, nat)>
  {
    var k := |s| - 6;
    if (k == 1 || k == 2) && TimeShape(s, k) then
      Some((DigitsValue(s[..k]), DigitsValue(s[k + 1..k + 3]), DigitsValue(s[k + 4..])))
    else None
  }

  /**
   * `sendTime`: a time command only for an input of the required shape whose
   * hour is at most 23 and whose minute and second are at most 59.
   */
  function TimeCommand(s: string): (r: Option<Command>)
    ensures r.Some? ==> (TimeShape(s, 1) || TimeShape(s, 2))
    ensures r.Some? ==> r.value.SetTime? && r.value.hour <= 23 && r.value.minute <= 59 && r.value.second <= 59
  {
    match ParseTimeInput(s)
    case None => None
    case Some((h, m, sec)) => if h > 23 || m > 59 || sec > 59 then None else Some(SetTime(h, m, sec))
  }

  /** The panel's own time text, `pad2` on each field, or with the hour unpadded. */
  function TimeInput(h: nat, m: nat, s: nat, padHour: bool): string
  {
    (if padHour then Pad2(h) else Decimal(h)) + ":" + Pad2(m) + ":" + Pad2(s)
  }

  /** Every valid clock time, typed with or without a leading zero on the hour, is accepted as itself. */
  lemma TimeInputAccepted(h: nat, m: nat, s: nat, padHour: bool)
    requires h <= 23 && m <= 59 && s <= 59
    ensures TimeCommand(TimeInput(h, m, s, padHour)) == Some(SetTime(h, m, s))
  {
    DecimalValue(h);
    DecimalLength(h);
    TimeTextParsed(if padHour then Pad2(h) else Decimal(h), Pad2(m), Pad2(s));
  }

  /** An hour of one or two digits and two two-digit fields, joined by ':', match the time regex field by field. */
  lemma TimeTextParsed(hs: string, ms: string, ss: string)
    requires (|hs| == 1 || |hs| == 2) && |ms| == 2 && |ss| == 2
    requires AllDigits(hs) && AllDigits(ms) && AllDigits(ss)
    ensures ParseTimeInput(hs + ":" + ms + ":" + ss) == Some((DigitsValue(hs), DigitsValue(ms), DigitsValue(ss)))
  {
    var t := hs + ":" + ms + ":" + ss;
    TimeTextPieces(hs, ms, ss);
    assert TimeShape(t, |hs|);
  }

  lemma TimeTextPieces(hs: string, ms: string, ss: string)
    requires |ms| == 2 && |ss| == 2
    ensures var t, k := hs + ":" + ms + ":" + ss, |hs|;
      |t| == k + 6 && t[..k] == hs && t[k] == ':' && t[k + 1..k + 3] == ms && t[k + 3] == ':' && t[k + 4..] == ss
  {
    var c := hs + ":" + ms + ":";
    var t := c + ss;
    var k := |hs|;
    assert t[k + 4..] == ss;
    assert t[..k] == hs by {
      assert t[..k] == c[..k];
    }
    assert t[k + 1..k + 3] == ms by {
      assert t[k + 1..k + 3] == c[k + 1..k + 3];
    }
  }

  /** A well-shaped input with a field out of range is refused. */
  lemma TimeOutOfRangeRefused(s: string, h: nat, m: nat, sec: nat)
    requires ParseTimeInput(s) == Some((h, m, sec))
    requires h > 23 || m > 59 || sec > 59
    ensures TimeCommand(s) == None
  {
  }

  /** "07:05:09" is sent without zero padding; "25:00:00" and "1:2" are refused. */
  lemma TimeExamples()
    ensures TimeCommand("07:05:09") == Some(SetTime(7, 5, 9))
    ensures Encode(SetTime(7, 5, 9)) == "TIME:7:5:9"
    ensures TimeCommand("25:00:00") == None
    ensures TimeCommand("1:2") == None
  {
    TwoDigitsValue("07");
    TwoDigitsValue("05");
    TwoDigitsValue("09");
    TwoDigitsValue("25");
    TwoDigitsValue("00");
    assert "07:05:09"[..2] == "07" && "07:05:09"[3..5] == "05" && "07:05:09"[6..] == "09";
    assert "25:00:00"[..2] == "25" && "25:00:00"[3..5] == "00" && "25:00:00"[6..] == "00";
  }

  // ----- sendDateTime -----

  /**
   * The part of `^(\d{4})-(\d{2})-(\d{2})T(\d{2}):(\d{2})(?::(\d{2}))?$`
   * before the optional seconds: exactly sixteen characters, read from the end.
   */
  function DateAndMinute(s: string, second: nat): (r: Option<Command>)
    ensures r.Some? ==> |s| == 16
    ensures r.Some? ==> r.value.SetDateTime? && r.value.at.second == second
    ensures r.Some? ==> r.value.at.year < 10000 && r.value.at.month < 100 && r.value.at.day < 100 &&
                        r.value.at.hour < 100 && r.value.at.minute < 100
  {
    if |s| != 16 then None
    else
      var mi :- PeelField(s, ':');
      var h :- PeelField(mi.0, 'T');
      var d :- PeelField(h.0, '-');
      var mo :- PeelField(d.0, '-');
      if AllDigits(mo.0) then
        DigitsBound(mo.0);
        Some(SetDateTime(DateTime(DigitsValue(mo.0), mo.1, d.1, h.1, mi.1, second)))
      else None
  }

  /**
   * `sendDateTime`: a date-time command for an input of the required shape,
   * the seconds defaulting to 0 when absent. Every field but the year has two
   * digits, so the command's wire text reads back unambiguously.
   */
  function DateTimeCommand(s: string): (r: Option<Command>)
    ensures r.Some? ==> |s| == 16 || |s| == 19
    ensures r.Some? ==> r.value.SetDateTime? && Unambiguous(r.value) && r.value.at.year < 10000
    ensures r.Some? && |s| == 16 ==> r.value.at.second == 0
  {
    if |s| == 19 then
      var sec :- PeelField(s, ':');
      DateAndMinute(sec.0, sec.1)
    else DateAndMinute(s, 0)
  }

  /**
   * The part of the date-time regex up to the minutes, at the start of `s`:
   * four digits, '-', two digits, '-', two digits, 'T', two digits, ':', two digits.
   */
  predicate DateMinuteShape(s: string)
  {
    |s| >= 16 && AllDigits(s[..4]) && s[4] == '-' && AllDigits(s[5..7]) && s[7] == '-' && AllDigits(s[8..10]) &&
    s[10] == 'T' && AllDigits(s[11..13]) && s[13] == ':' && AllDigits(s[14..16])
  }

  /** `^(\d{4})-(\d{2})-(\d{2})T(\d{2}):(\d{2})(?::(\d{2}))?$`. */
  predicate DateTimeShape(s: string)
  {
    DateMinuteShape(s) && (|s| == 16 || (|s| == 19 && s[16] == ':' && AllDigits(s[17..])))
  }

  /** The regex's digit groups, read with the unary `+`; absent seconds are 0. */
  function DateTimeFields(s: string): DateTime
    requires DateTimeShape(s)
  {
    DateTime(DigitsValue(s[..4]), DigitsValue(s[5..7]), DigitsValue(s[8..10]), DigitsValue(s[11..13]),
             DigitsValue(s[14..16]), if |s| == 19 then DigitsValue(s[17..]) else 0)
  }

  /** Peeling a field off the first `n` characters of `s` reads the characters of `s` before `n`. */
  lemma PeelPrefix(s: string, n: nat, sep: char)
    requires 3 <= n <= |s|
    ensures PeelField(s[..n], sep) ==
      if s[n - 3] == sep && AllDigits(s[n - 2..n]) then Some((s[..n - 3], DigitsValue(s[n - 2..n]))) else None
  {
    var p := s[..n];
    assert p[n - 3] == s[n - 3];
    assert p[n - 2..] == s[n - 2..n];
    assert p[..n - 3] == s[..n - 3];
  }

  lemma DateAndMinuteOf(s: string, second: nat)
    requires |s| >= 16
    ensures DateAndMinute(s[..16], second) ==
      if DateMinuteShape(s) then
        Some(SetDateTime(DateTime(DigitsValue(s[..4]), DigitsValue(s[5..7]), DigitsValue(s[8..10]),
                                  DigitsValue(s[11..13]), DigitsValue(s[14..16]), second)))
      else None
  {
    PeelPrefix(s, 16, ':');
    PeelPrefix(s, 13, 'T');
    PeelPrefix(s, 10, '-');
    PeelPrefix(s, 7, '-');
  }

  /**
   * `sendDateTime` builds a command exactly for an input the regex matches,
   * and the command's fields are the regex's digit groups, whatever the year's
   * leading zeros.
   */
  lemma DateTimeCommandSpec(s: string)
    ensures DateTimeCommand(s) == if DateTimeShape(s) then Some(SetDateTime(DateTimeFields(s))) else None
  {
    if |s| == 19 {
      PeelPrefix(s, 19, ':');
      assert s[..19] == s && s[17..19] == s[17..];
      DateAndMinuteOf(s, if AllDigits(s[17..]) then DigitsValue(s[17..]) else 0);
    } else if |s| == 16 {
      DateAndMinuteOf(s, 0);
      assert s[..16] == s;
    }
  }

  /** A separator other than the regex's is refused. */
  lemma DateTimeWrongSeparator()
    ensures DateTimeCommand("2024x01-01T10:00") == None
  {
    DateTimeCommandSpec("2024x01-01T10:00");
  }

  /** The panel's own date-time text, "YYYY-MM-DDTHH:MM" and, when `withSeconds`, ":SS", built with `pad2`. */
  function DateTimeInput(dt: DateTime, withSeconds: bool): string
  {
    var minute := Decimal(dt.year) + Field('-', dt.month) + Field('-', dt.day) + Field('T', dt.hour) + Field(':', dt.minute);
    if withSeconds then minute + Field(':', dt.second) else minute
  }

  /**
   * A date-time text whose year is any four digits, leading zeros included,
   * and whose other fields come from `pad2` is accepted and read back field by
   * field; without the seconds, 0 seconds are sent.
   */
  lemma DateTimeTextAccepted(year: string, dt: DateTime, withSeconds: bool)
    requires |year| == 4 && AllDigits(year)
    requires dt.month < 100 && dt.day < 100 && dt.hour < 100 && dt.minute < 100 && dt.second < 100
    ensures var minute := year + Field('-', dt.month) + Field('-', dt.day) + Field('T', dt.hour) + Field(':', dt.minute);
      DateTimeCommand(if withSeconds then minute + Field(':', dt.second) else minute) ==
      Some(SetDateTime(dt.(year := DigitsValue(year), second := if withSeconds then dt.second else 0)))
  {
    var a := year + Field('-', dt.month);
    var b := a + Field('-', dt.day);
    var c := b + Field('T', dt.hour);
    var d := c + Field(':', dt.minute);
    assert |d| == 16;
    PeelFieldOf(d, ':', dt.second);
    PeelFieldOf(c, ':', dt.minute);
    PeelFieldOf(b, 'T', dt.hour);
    PeelFieldOf(a, '-', dt.day);
    PeelFieldOf(year, '-', dt.month);
  }

  /** The panel's own date-time text is accepted and read back field by field whenever the year has four digits. */
  lemma DateTimeInputAccepted(dt: DateTime, withSeconds: bool)
    requires 1000 <= dt.year <= 9999
    requires dt.month < 100 && dt.day < 100 && dt.hour < 100 && dt.minute < 100 && dt.second < 100
    ensures DateTimeCommand(DateTimeInput(dt, withSeconds)) ==
            Some(SetDateTime(if withSeconds then dt else dt.(second := 0)))
  {
    DecimalLength(dt.year);
    DecimalValue(dt.year);
    DateTimeTextAccepted(Decimal(dt.year), dt, withSeconds);
  }

  // ----- addNote, editNote, sendStatus, showCompanyOnWatch -----

  /**
   * A form field after `trim`, or `None` when nothing but whitespace was
   * typed. What is kept has exactly the field's visible characters.
   */
  function Required(field: string): (r: Option<string>)
    ensures r.None? <==> AllSpace(field)
    ensures r.Some? ==> r.value != [] && Trimmed(r.value) && Visible(r.value) == Visible(field)
  {
    var t := Trim(field);
    TrimKeepsVisible(field);
    if t == [] then None else Some(t)
  }

  /** `addNote`: a note only when both company and text have a non-space character; both are sent trimmed. */
  function NoteCommand(company: string, text: string): (r: Option<Command>)
    ensures r.Some? <==> !AllSpace(company) && !AllSpace(text)
    ensures r.Some? ==> r.value == AddNote(Required(company).value, Required(text).value)
  {
    match (Required(company), Required(text))
    case (Some(c), Some(t)) => Some(AddNote(c, t))
    case _ => None
  }

  /** `editNote`: the same checks as a new note, sent as an edit. */
  function EditCommand(company: string, text: string): (r: Option<Command>)
    ensures r.Some? <==> !AllSpace(company) && !AllSpace(text)
    ensures r.Some? ==> r.value == EditNote(Required(company).value, Required(text).value)
  {
    match (Required(company), Required(text))
    case (Some(c), Some(t)) => Some(EditNote(c, t))
    case _ => None
  }

  /** `sendStatus`. */
  function StatusCommand(message: string): (r: Option<Command>)
    ensures r.Some? <==> !AllSpace(message)
    ensures r.Some? ==> r.value == SetStatus(Required(message).value)
  {
    match Required(message)
    case Some(m) => Some(SetStatus(m))
    case None => None
  }

  /** `showCompanyOnWatch`. */
  function ShowCommand(query: string): (r: Option<Command>)
    ensures r.Some? <==> !AllSpace(query)
    ensures r.Some? ==> r.value == ShowCompany(Required(query).value)
  {
    match Required(query)
    case Some(q) => Some(ShowCompany(q))
    case None => None
  }

  /**
   * `sendCommand` trims the whole wire text before writing it. For every
   * command a handler builds, that trim changes nothing, and the text reads
   * back as the command unless a note's company holds a '|'.
   */
  lemma HandlerWireIntact(c: Command)
    requires HandlerShaped(c)
    ensures Trim(Encode(c)) == Encode(c)
    ensures Unambiguous(c) ==> Decode(Encode(c)) == Some(c)
  {
    WireTrimmed(c);
    TrimOfTrimmed(Encode(c));
    if Unambiguous(c) {
      EncodeDecode(c);
    }
  }

  /** What every handler's command has in common: its free-text fields are non-empty and trimmed. */
  predicate HandlerShaped(c: Command)
  {
    match c
    case SetDateTime(_) => Unambiguous(c)
    case AddNote(_, text) => text != [] && Trimmed(text)
    case EditNote(_, text) => text != [] && Trimmed(text)
    case SetStatus(message) => message != [] && Trimmed(message)
    case ShowCompany(query) => query != [] && Trimmed(query)
    case Raw(_) => false
    case _ => true
  }

  lemma WireTrimmed(c: Command)
    requires HandlerShaped(c)
    ensures Trimmed(Encode(c))
  {
    var w := Encode(c);
    match c {
      case SetTime(h, m, s) => TimeWireTrimmed(h, m, s);
      case SetDateTime(dt) => DateTimeWireTrimmed(dt);
      case AddNote(company, text) =>
        EndsTrimmed("NOTE:" + company + "|", text);
      case EditNote(company, text) =>
        EndsTrimmed("EDIT:" + company + "|", text);
      case SetStatus(message) =>
        EndsTrimmed("STATUS:", message);
      case ShowCompany(query) =>
        EndsTrimmed("SHOW:", query);
      case DeleteCurrentNote =>
      case ClearAllNotes =>
    }
  }

  lemma TimeWireTrimmed(h: nat, m: nat, s: nat)
    ensures Trimmed(TimeWire(h, m, s))
  {
    EndsTrimmed("TIME:" + Decimal(h) + ":" + Decimal(m) + ":", Decimal(s));
  }

  lemma DateTimeWireTrimmed(dt: DateTime)
    ensures Trimmed(DateTimeWire(dt))
  {
    FormatDateTimeEnds(dt);
    EndsTrimmed("DATETIME:", FormatDateTime(dt));
  }

  lemma EndsTrimmed(a: string, b: string)
    requires a != [] && !IsSpace(a[0])
    requires b != [] && (!IsSpace(b[|b| - 1]) || AllDigits(b))
    ensures Trimmed(a + b)
  {
    assert (a + b)[|a + b| - 1] == b[|b| - 1];
  }

  // ----- the AI result adapter -----

  /** A bullet as the watch shows it: a marker glyph, a space and the trimmed bullet. */
  function Marked(bullet: string): string
  {
    "• " + Trim(bullet)
  }

  function MarkedLines(bullets: seq<string>): (r: seq<string>)
    ensures |r| == |bullets|
    ensures forall i :: 0 <= i < |r| ==> r[i] == Marked(bullets[i])
  {
    if bullets == [] then [] else [Marked(bullets[0])] + MarkedLines(bullets[1..])
  }

  /** `bulletsToWatchText`: the marked bullets, one per line. */
  function WatchText(bullets: seq<string>): string
  {
    Join(MarkedLines(bullets), '\n')
  }

  /**
   * The watch text splits back into one marked line per bullet, in order,
   * when no bullet holds a line break inside it.
   */
  lemma WatchTextLines(bullets: seq<string>)
    requires |bullets| >= 1
    requires forall i :: 0 <= i < |bullets| ==> '\n' !in Trim(bullets[i])
    ensures Split(WatchText(bullets), '\n') == MarkedLines(bullets)
  {
    var lines := MarkedLines(bullets);
    forall i | 0 <= i < |lines|
      ensures '\n' !in lines[i]
    {
      MarkedUnbroken(bullets[i]);
    }
    SplitJoin(lines, '\n');
  }

  lemma MarkedUnbroken(bullet: string)
    requires '\n' !in Trim(bullet)
    ensures '\n' !in Marked(bullet)
  {
    assert Marked(bullet) == "• " + Trim(bullet);
  }

  /** Three bullets become three marked lines joined by line breaks; no bullets give the empty text. */
  lemma WatchTextOfThree(a: string, b: string, c: string)
    ensures WatchText([a, b, c]) == Marked(a) + "\n" + Marked(b) + "\n" + Marked(c)
    ensures WatchText([]) == ""
  {
    var lines := MarkedLines([a, b, c]);
    assert lines == [Marked(a), Marked(b), Marked(c)];
    JoinThree(Marked(a), Marked(b), Marked(c), '\n');
  }

  /** The relay's answer as the panel holds it. */
  datatype AiNote = AiNote(company: string, bullets: seq<string>)

  /**
   * `sendAiResultToWatch` without its connection check: nothing for a missing
   * result, an empty company or no bullets; otherwise a note of the bullets
   * followed by a command that shows that same company.
   */
  function AiCommands(result: Option<AiNote>): (r: seq<Command>)
    ensures r == [] <==> result.None? || result.value.company == [] || result.value.bullets == []
    ensures r != [] ==> |r| == 2 && r[0].AddNote? && r[1].ShowCompany? && r[0].company == r[1].query == result.value.company
  {
    match result
    case None => []
    case Some(n) =>
      if n.company == [] || n.bullets == [] then []
      else [AddNote(n.company, WatchText(n.bullets)), ShowCompany(n.company)]
  }

  /**
   * At the end of a text, `trimEnd` keeps a marked bullet as it is, except a
   * blank bullet, whose "• " loses its space.
   */
  lemma MarkedTrimEnd(bullet: string)
    ensures !AllSpace(Marked(bullet))
    ensures TrimEnd(Marked(bullet)) == if Trim(bullet) == [] then "•" else Marked(bullet)
  {
    var m := Marked(bullet);
    assert m[0] == '•' && !IsSpace('•');
    if Trim(bullet) == [] {
      assert m == "•" + " ";
      TrimEndAppendSpace("•", " ");
    } else {
      assert m[|m| - 1] == Trim(bullet)[|Trim(bullet)| - 1];
    }
  }

  /** A note whose head is intact reaches the watch with only its text trimmed at the end. */
  lemma NoteReceived(company: string, text: string)
    requires '|' !in company
    ensures Trim(NoteWire(company, text)) == NoteWire(company, TrimEnd(text))
    ensures Decode(Trim(NoteWire(company, text))) == Some(AddNote(company, TrimEnd(text)))
  {
    var head := "NOTE:" + company + "|";
    assert NoteWire(company, text) == head + text;
    assert head[0] == 'N' && head[|head| - 1] == '|';
    TrimAfterHead(head, text);
    EncodeDecode(AddNote(company, TrimEnd(text)));
  }

  /** A show command reaches the watch with its query trimmed at the end. */
  lemma ShowReceived(query: string)
    ensures Trim(ShowWire(query)) == ShowWire(TrimEnd(query))
    ensures Decode(Trim(ShowWire(query))) == Some(ShowCompany(TrimEnd(query)))
  {
    TrimAfterHead("SHOW:", query);
    EncodeDecode(ShowCompany(TrimEnd(query)));
  }

  /** The watch text trimmed at its end splits into the marked lines, a blank last bullet shortened to "•". */
  lemma WatchTextReceived(bullets: seq<string>)
    requires |bullets| >= 1
    requires forall i :: 0 <= i < |bullets| ==> '\n' !in Trim(bullets[i])
    ensures var last := bullets[|bullets| - 1];
      Split(TrimEnd(WatchText(bullets)), '\n') ==
        MarkedLines(bullets[..|bullets| - 1]) + [if Trim(last) == [] then "•" else Marked(last)]
  {
    var k := |bullets| - 1;
    var lines := MarkedLines(bullets);
    MarkedTrimEnd(bullets[k]);
    JoinTrimEnd(lines, '\n');
    var received := lines[..k] + [TrimEnd(lines[k])];
    assert lines[..k] == MarkedLines(bullets[..k]);
    forall i | 0 <= i < |received|
      ensures '\n' !in received[i]
    {
      MarkedUnbroken(bullets[i]);
    }
    SplitJoin(received, '\n');
  }

  /**
   * What the watch reads of the adapter's two commands once `sendCommand`
   * has trimmed them: the note holds the company and one marked line per
   * bullet, except that a blank last bullet arrives as a bare "•"; the show
   * names the company without its trailing whitespace.
   */
  lemma AiCommandsReadBack(n: AiNote)
    requires n.company != [] && n.bullets != []
    requires '|' !in n.company
    requires forall i :: 0 <= i < |n.bullets| ==> '\n' !in Trim(n.bullets[i])
    ensures var cs := AiCommands(Some(n));
      var last := n.bullets[|n.bullets| - 1];
      var text := TrimEnd(cs[0].text);
      Decode(Trim(Encode(cs[0]))) == Some(AddNote(n.company, text)) &&
      Split(text, '\n') == MarkedLines(n.bullets[..|n.bullets| - 1]) + [if Trim(last) == [] then "•" else Marked(last)] &&
      Decode(Trim(Encode(cs[1]))) == Some(ShowCompany(TrimEnd(n.company)))
  {
    var cs := AiCommands(Some(n));
    assert cs == [AddNote(n.company, WatchText(n.bullets)), ShowCompany(n.company)];
    NoteReceived(n.company, WatchText(n.bullets));
    ShowReceived(n.company);
    WatchTextReceived(n.bullets);
  }

  /**
   * With a trimmed company and a last bullet that is not blank, as the relay
   * answers, `sendCommand`'s trim leaves both texts as built: the watch reads
   * the note back with one marked line per bullet, and the show as built.
   */
  lemma AiCommandsSentIntact(n: AiNote)
    requires n.company != [] && n.bullets != []
    requires '|' !in n.company && Trimmed(n.company) && !AllSpace(n.bullets[|n.bullets| - 1])
    requires forall i :: 0 <= i < |n.bullets| ==> '\n' !in Trim(n.bullets[i])
    ensures var cs := AiCommands(Some(n));
      Trim(Encode(cs[0])) == Encode(cs[0]) && Trim(Encode(cs[1])) == Encode(cs[1]) &&
      Decode(Trim(Encode(cs[0]))) == Some(cs[0]) && Split(cs[0].text, '\n') == MarkedLines(n.bullets) &&
      Decode(Trim(Encode(cs[1]))) == Some(cs[1])
  {
    var cs := AiCommands(Some(n));
    assert cs == [AddNote(n.company, WatchText(n.bullets)), ShowCompany(n.company)];
    WatchTextEndsVisible(n.bullets);
    assert TrimEnd(n.company) == n.company;
    NoteReceived(n.company, WatchText(n.bullets));
    ShowReceived(n.company);
    WatchTextLines(n.bullets);
  }

  /** A watch text whose last bullet is not blank ends in a visible character. */
  lemma WatchTextEndsVisible(bullets: seq<string>)
    requires |bullets| >= 1 && !AllSpace(bullets[|bullets| - 1])
    ensures TrimEnd(WatchText(bullets)) == WatchText(bullets)
  {
    var lines := MarkedLines(bullets);
    MarkedTrimEnd(bullets[|bullets| - 1]);
    JoinEndsVisible(lines, '\n');
  }


  /**
   * A blank last bullet reaches the watch as a bare "•", not as the "• "
   * the adapter built: the bullets a and " " arrive as the lines "• " + a
   * (trimmed) and "•".
   */
  lemma BlankLastBulletShortened(a: string)
    requires '\n' !in Trim(a)
    ensures Split(TrimEnd(WatchText([a, " "])), '\n') == [Marked(a), "•"]
    ensures MarkedLines([a, " "]) == [Marked(a), "• "]
  {
    var bullets := [a, " "];
    assert AllSpace(bullets[1]);
    assert Trim(bullets[1]) == [];
    assert Marked(bullets[1]) == "• ";
    assert bullets[..1] == [a];
    assert MarkedLines([a]) == [Marked(a)];
    WatchTextReceived(bullets);
  }


}
