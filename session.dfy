/**
 * The panel's activity log (src/App.jsx `pushLog`): an append-only list of
 * lines that keeps only the most recent 250, evicting the oldest first.
 */
module Session {

  const LogCapacity: nat := 250

  /** The newest `LogCapacity` entries of `entries`, in their order. */
  function Newest(entries: seq<string>): (r: seq<string>)
    ensures |r| == if |entries| <= LogCapacity then |entries| else LogCapacity
    ensures r != [] ==> r[|r| - 1] == entries[|entries| - 1]
  {
    if |entries| > LogCapacity then entries[|entries| - LogCapacity..] else entries
  }

  /** Entry `i` of the kept window is entry `i` counted from where the window starts. */
  lemma NewestAt(entries: seq<string>, i: nat)
    requires i < |Newest(entries)|
    ensures Newest(entries)[i] == entries[|entries| - |Newest(entries)| + i]
  {
  }

  /**
   * `pushLog`: the new line goes last; the log grows by one until it holds
   * 250 lines, after which the oldest line is the one dropped, and the
   * surviving lines keep their order.
   */
  function Pushed(log: seq<string>, line: string): (r: seq<string>)
    ensures |r| == if |log| < LogCapacity then |log| + 1 else LogCapacity
    ensures r[|r| - 1] == line
  {
    Newest(log + [line])
  }

  /** Several `pushLog` calls in a row. */
  function PushedAll(log: seq<string>, lines: seq<string>): seq<string>
    decreases |lines|
  {
    if lines == [] then log else PushedAll(Pushed(log, lines[0]), lines[1..])
  }

  /** `k` copies of one line. */
  function Repeated(line: string, k: nat): (r: seq<string>)
    ensures |r| == k && forall i :: 0 <= i < k ==> r[i] == line
  {
    if k == 0 then [] else Repeated(line, k - 1) + [line]
  }

  /** Pushing a list of lines and then one more line is pushing the longer list. */
  lemma {:induction false} PushedAllThenOne(log: seq<string>, lines: seq<string>, line: string)
    ensures PushedAll(log, lines + [line]) == Pushed(PushedAll(log, lines), line)
    decreases |lines|
  {
    if lines == [] {
      assert lines + [line] == [line];
      assert [line][1..] == [];
    } else {
      assert (lines + [line])[1..] == lines[1..] + [line];
      PushedAllThenOne(Pushed(log, lines[0]), lines[1..], line);
    }
  }

  /** Trimming early to the newest entries changes nothing about the newest entries later. */
  lemma NewestAbsorbs(a: seq<string>, b: seq<string>)
    ensures Newest(Newest(a) + b) == Newest(a + b)
  {
    if |a| > LogCapacity {
      var k := |a| - LogCapacity;
      var ab := a + b;
      assert Newest(a) + b == ab[k..];
      assert ab[k..][|b|..] == ab[k + |b|..];
    }
  }

  /**
   * However many lines are pushed, a log that started within its bound ends
   * up holding exactly the newest 250 of all lines ever pushed, in order.
   */
  lemma {:induction false} PushedAllKeepsNewest(log: seq<string>, lines: seq<string>)
    requires |log| <= LogCapacity
    ensures PushedAll(log, lines) == Newest(log + lines)
    decreases |lines|
  {
    if lines == [] {
      assert log + lines == log;
    } else {
      var next := Pushed(log, lines[0]);
      PushedAllKeepsNewest(next, lines[1..]);
      NewestAbsorbs(log + [lines[0]], lines[1..]);
      assert log + [lines[0]] + lines[1..] == log + lines;
    }
  }

  /** Pushing 260 lines onto an empty log leaves the last 250 of them, oldest first. */
  lemma TwoHundredSixtyPushes(lines: seq<string>)
    requires |lines| == 260
    ensures PushedAll([], lines) == lines[10..]
  {
    var empty: seq<string> := [];
    PushedAllKeepsNewest(empty, lines);
    assert empty + lines == lines;
    assert |Newest(lines)| == LogCapacity;
  }
}
