/**
 * The line-oriented text protocol the companion panel writes to the watch
 * (src/App.jsx): one wire string per command. `Decode` is the reading side,
 * written here to show which commands the format carries unambiguously.
 */
module Wire {
  import opened Wrappers
  import opened Strings

  /** Calendar and clock fields as the host's local `Date` reports them. */
  datatype DateTime = DateTime(year: nat, month: nat, day: nat, hour: nat, minute: nat, second: nat)

  /** A separator followed by `pad2` of a field. */
  function Field(sep: char, n: nat): string
  {
    [sep] + Pad2(n)
  }

  /** `fmtProtocolDateTime`: "Y-MM-DD HH:MM:SS", the year unpadded and the other fields through `pad2`. */
  function FormatDateTime(dt: DateTime): string
  {
    Decimal(dt.year) + Field('-', dt.month) + Field('-', dt.day) + Field(' ', dt.hour) +
    Field(':', dt.minute) + Field(':', dt.second)
  }

  lemma FormatDateTimeEnds(dt: DateTime)
    ensures |FormatDateTime(dt)| >= 1 && IsDigit(FormatDateTime(dt)[|FormatDateTime(dt)| - 1])
  {
    var f := FormatDateTime(dt);
    var p := Pad2(dt.second);
    assert f[|f| - 1] == p[|p| - 1];
  }

  /** Splits a separator and two digits off the end of `p`: what is left and the field's value. */
  function PeelField(p: string, sep: char): (r: Option<(string, nat)>)
    ensures r.Some? ==> r.value.1 < 100 && |r.value.0| == |p| - 3
  {
    if |p| >= 3 && p[|p| - 3] == sep && AllDigits(p[|p| - 2..]) then
      DigitsBound(p[|p| - 2..]);
      assert Pow10(2) == 100;
      Some((p[..|p| - 3], DigitsValue(p[|p| - 2..])))
    else None
  }

  lemma PeelFieldOf(a: string, sep: char, n: nat)
    requires n < 100
    ensures PeelField(a + Field(sep, n), sep) == Some((a, n))
  {
    var p := a + Field(sep, n);
    assert p[..|p| - 3] == a;
    assert p[|p| - 2..] == Pad2(n);
  }

  datatype Command =
    | SetTime(hour: nat, minute: nat, second: nat)
    | SetDateTime(at: DateTime)
    | AddNote(company: string, text: string)
    | EditNote(company: string, text: string)
    | DeleteCurrentNote
    | ClearAllNotes
    | SetStatus(message: string)
    | ShowCompany(query: string)
    | Raw(payload: string)

  // The wire text of each kind of command, as the handlers interpolate it.
  function TimeWire(h: nat, m: nat, s: nat): string { "TIME:" + Decimal(h) + ":" + Decimal(m) + ":" + Decimal(s) }
  function DateTimeWire(dt: DateTime): string { "DATETIME:" + FormatDateTime(dt) }
  function NoteWire(company: string, text: string): string { "NOTE:" + company + "|" + text }
  function EditWire(company: string, text: string): string { "EDIT:" + company + "|" + text }
  function StatusWire(message: string): string { "STATUS:" + message }
  function ShowWire(query: string): string { "SHOW:" + query }

  /** The wire text of each command; a raw command is its payload verbatim. */
  function Encode(c: Command): string
  {
    match c
    case SetTime(h, m, s) => TimeWire(h, m, s)
    case SetDateTime(dt) => DateTimeWire(dt)
    case AddNote(company, text) => NoteWire(company, text)
    case EditNote(company, text) => EditWire(company, text)
    case DeleteCurrentNote => "DELETE"
    case ClearAllNotes => "CLEAR"
    case SetStatus(message) => StatusWire(message)
    case ShowCompany(query) => ShowWire(query)
    case Raw(payload) => payload
  }

  // ----- the reading side -----

  predicate HasPrefix(w: string, p: string)
  {
    |p| <= |w| && w[..|p|] == p
  }

  function DecodeTime(p: string): Option<Command>
  {
    var parts := Split(p, ':');
    if |parts| == 3 && parts[0] != [] && parts[1] != [] && parts[2] != [] &&
       AllDigits(parts[0]) && AllDigits(parts[1]) && AllDigits(parts[2])
    then Some(SetTime(DigitsValue(parts[0]), DigitsValue(parts[1]), DigitsValue(parts[2])))
    else None
  }

  /** Reads "Y-MM-DD HH:MM:SS" with a year of one digit or more, peeling the fields off from the end. */
  function DecodeDateTime(p: string): Option<Command>
  {
    var s :- PeelField(p, ':');
    var mi :- PeelField(s.0, ':');
    var h :- PeelField(mi.0, ' ');
    var d :- PeelField(h.0, '-');
    var mo :- PeelField(d.0, '-');
    if mo.0 != [] && AllDigits(mo.0) then
      Some(SetDateTime(DateTime(DigitsValue(mo.0), mo.1, d.1, h.1, mi.1, s.1)))
    else None
  }

  /** Company up to the first '|', text after it. */
  function SplitNote(p: string): Option<(string, string)>
  {
    var i := Find(p, '|');
    if i == |p| then None else Some((p[..i], p[i + 1..]))
  }

  function Decode(w: string): Option<Command>
  {
    if w == "DELETE" then Some(DeleteCurrentNote)
    else if w == "CLEAR" then Some(ClearAllNotes)
    else if HasPrefix(w, "TIME:") then DecodeTime(w[5..])
    else if HasPrefix(w, "DATETIME:") then DecodeDateTime(w[9..])
    else if HasPrefix(w, "NOTE:") then
      (match SplitNote(w[5..]) case Some((c, t)) => Some(AddNote(c, t)) case None => None)
    else if HasPrefix(w, "EDIT:") then
      (match SplitNote(w[5..]) case Some((c, t)) => Some(EditNote(c, t)) case None => None)
    else if HasPrefix(w, "STATUS:") then Some(SetStatus(w[7..]))
    else if HasPrefix(w, "SHOW:") then Some(ShowCompany(w[5..]))
    else None
  }

  /**
   * The commands whose wire text identifies them: a note's company must not
   * contain the '|' separator (nothing escapes it), date fields other than
   * the year must fit `pad2`'s two digits, and a raw payload can imitate any
   * other command.
   */
  predicate Unambiguous(c: Command)
  {
    match c
    case SetDateTime(dt) => dt.month < 100 && dt.day < 100 && dt.hour < 100 && dt.minute < 100 && dt.second < 100
    case AddNote(company, _) => '|' !in company
    case EditNote(company, _) => '|' !in company
    case Raw(_) => false
    case _ => true
  }

  lemma DigitsLack(s: string, c: char)
    requires AllDigits(s) && !IsDigit(c)
    ensures c !in s
  {
  }

  lemma TimeRoundTrip(h: nat, m: nat, s: nat)
    ensures DecodeTime(Decimal(h) + ":" + Decimal(m) + ":" + Decimal(s)) == Some(SetTime(h, m, s))
  {
    var a, b, d := Decimal(h), Decimal(m), Decimal(s);
    DigitsLack(a, ':');
    DigitsLack(b, ':');
    DigitsLack(d, ':');
    var parts := [a, b, d];
    assert Join(parts[2..], ':') == d;
    assert Join(parts[1..], ':') == b + ":" + d;
    assert Join(parts, ':') == a + ":" + b + ":" + d;
    SplitJoin(parts, ':');
    DecimalValue(h);
    DecimalValue(m);
    DecimalValue(s);
  }

  lemma DateTimeRoundTrip(dt: DateTime)
    requires dt.month < 100 && dt.day < 100 && dt.hour < 100 && dt.minute < 100 && dt.second < 100
    ensures DecodeDateTime(FormatDateTime(dt)) == Some(SetDateTime(dt))
  {
    var y := Decimal(dt.year);
    var a := y + Field('-', dt.month);
    var b := a + Field('-', dt.day);
    var c := b + Field(' ', dt.hour);
    var d := c + Field(':', dt.minute);
    PeelFieldOf(d, ':', dt.second);
    PeelFieldOf(c, ':', dt.minute);
    PeelFieldOf(b, ' ', dt.hour);
    PeelFieldOf(a, '-', dt.day);
    PeelFieldOf(y, '-', dt.month);
    DecimalValue(dt.year);
  }

  lemma NoteRoundTrip(company: string, text: string)
    requires '|' !in company
    ensures SplitNote(company + "|" + text) == Some((company, text))
  {
    FindAfter(company, text, '|');
    var p := company + "|" + text;
    assert p[..|company|] == company;
    assert p[|company| + 1..] == text;
  }

  /** A wire text that differs from `p` at position `k` neither equals `p` nor starts with it. */
  lemma Differs(w: string, p: string, k: nat)
    requires k < |w| && k < |p| && w[k] != p[k]
    ensures w != p && !HasPrefix(w, p)
  {
    assert |p| <= |w| ==> w[..|p|][k] == w[k];
  }

  lemma DecodeTimeWire(h: nat, m: nat, s: nat)
    ensures Decode(Encode(SetTime(h, m, s))) == Some(SetTime(h, m, s))
  {
    var w := Encode(SetTime(h, m, s));
    Differs(w, "DELETE", 0);
    Differs(w, "CLEAR", 0);
    assert w[..5] == "TIME:" && w[5..] == Decimal(h) + ":" + Decimal(m) + ":" + Decimal(s);
    TimeRoundTrip(h, m, s);
  }

  lemma DecodeDateTimeWire(dt: DateTime)
    requires Unambiguous(SetDateTime(dt))
    ensures Decode(Encode(SetDateTime(dt))) == Some(SetDateTime(dt))
  {
    var w := Encode(SetDateTime(dt));
    Differs(w, "DELETE", 1);
    Differs(w, "CLEAR", 0);
    Differs(w, "TIME:", 0);
    assert w[..9] == "DATETIME:" && w[9..] == FormatDateTime(dt);
    DateTimeRoundTrip(dt);
  }

  lemma DecodeNoteWire(company: string, text: string, edit: bool)
    requires '|' !in company
    ensures var c := if edit then EditNote(company, text) else AddNote(company, text);
      Decode(Encode(c)) == Some(c)
  {
    if edit {
      DecodeEditWire(company, text);
    } else {
      DecodeAddWire(company, text);
    }
  }

  lemma DecodeAddWire(company: string, text: string)
    requires '|' !in company
    ensures Decode(NoteWire(company, text)) == Some(AddNote(company, text))
  {
    var w := NoteWire(company, text);
    NoteRoundTrip(company, text);
    Differs(w, "DELETE", 0);
    Differs(w, "CLEAR", 0);
    Differs(w, "TIME:", 0);
    Differs(w, "DATETIME:", 0);
    assert w[..5] == "NOTE:" && w[5..] == company + "|" + text;
  }

  lemma DecodeEditWire(company: string, text: string)
    requires '|' !in company
    ensures Decode(EditWire(company, text)) == Some(EditNote(company, text))
  {
    var w := EditWire(company, text);
    NoteRoundTrip(company, text);
    Differs(w, "DELETE", 0);
    Differs(w, "CLEAR", 0);
    Differs(w, "TIME:", 0);
    Differs(w, "DATETIME:", 0);
    Differs(w, "NOTE:", 0);
    assert w[..5] == "EDIT:" && w[5..] == company + "|" + text;
  }

  lemma DecodeTextWire(text: string, show: bool)
    ensures var c := if show then ShowCompany(text) else SetStatus(text);
      Decode(Encode(c)) == Some(c)
  {
    var c := if show then ShowCompany(text) else SetStatus(text);
    var w := Encode(c);
    Differs(w, "DELETE", 0);
    Differs(w, "CLEAR", 0);
    Differs(w, "TIME:", 0);
    Differs(w, "DATETIME:", 0);
    Differs(w, "NOTE:", 0);
    Differs(w, "EDIT:", 0);
    if show {
      Differs(w, "STATUS:", 1);
      assert w[..5] == "SHOW:" && w[5..] == text;
    } else {
      assert w[..7] == "STATUS:" && w[7..] == text;
    }
  }

  /**
   * The wire format is a faithful encoding of every unambiguous command:
   * reading the wire text gives the command back.
   */
  lemma EncodeDecode(c: Command)
    requires Unambiguous(c)
    ensures Decode(Encode(c)) == Some(c)
  {
    match c {
      case SetTime(h, m, s) => DecodeTimeWire(h, m, s);
      case SetDateTime(dt) => DecodeDateTimeWire(dt);
      case AddNote(company, text) => DecodeNoteWire(company, text, false);
      case EditNote(company, text) => DecodeNoteWire(company, text, true);
      case DeleteCurrentNote =>
      case ClearAllNotes =>
      case SetStatus(message) => DecodeTextWire(message, false);
      case ShowCompany(query) => DecodeTextWire(query, true);
    }
  }

  /**
   * A '|' in the company makes a note ambiguous: two different notes share
   * one wire text, so the watch cannot tell where the company ends.
   */
  lemma NoteSeparatorCollides(a: string, b: string, t: string)
    ensures AddNote(a + "|" + b, t) != AddNote(a, b + "|" + t)
    ensures Encode(AddNote(a + "|" + b, t)) == Encode(AddNote(a, b + "|" + t))
  {
    assert |a + "|" + b| != |a|;
  }

  /** `pad2` keeps the date text at its fixed width: 19 characters for a four-digit year and in-range fields. */
  lemma FormatDateTimeWidth(dt: DateTime)
    requires 1000 <= dt.year <= 9999
    requires dt.month < 100 && dt.day < 100 && dt.hour < 100 && dt.minute < 100 && dt.second < 100
    ensures |FormatDateTime(dt)| == 19
  {
    DecimalLength(dt.year);
  }
}
