/**
 * The string primitives the companion panel and the relay rely on, with the
 * meaning ECMAScript gives them: the whitespace class `\s`, `trim`,
 * `String(n)` for a non-negative integer, `Number` on a digit string,
 * `padStart(2, "0")`, and splitting and joining on one separator character.
 */
module Strings {

  /** A WhiteSpace or LineTerminator code point: what `\s` matches and `trim` removes. */
  predicate IsSpace(c: char)
  {
    var n := c as int;
    (0x09 <= n <= 0x0D) || n == 0x20 || n == 0xA0 || n == 0x1680 || (0x2000 <= n <= 0x200A) ||
    n == 0x2028 || n == 0x2029 || n == 0x202F || n == 0x205F || n == 0x3000 || n == 0xFEFF
  }

  predicate AllSpace(s: string)
  {
    forall i :: 0 <= i < |s| ==> IsSpace(s[i])
  }

  /** A position inside an all-whitespace slice holds whitespace. */
  lemma SpaceWithin(s: string, from: nat, to: nat, j: nat)
    requires from <= to <= |s| && j < |s| && AllSpace(s[from..to])
    ensures from <= j < to ==> IsSpace(s[j])
  {
    if from <= j < to {
      assert s[from..to][j - from] == s[j];
    }
  }


  /** `trimStart`: drops the leading whitespace run. */
  function TrimStart(s: string): (r: string)
    ensures |r| <= |s|
    ensures r == [] || !IsSpace(r[0])
  {
    if s != [] && IsSpace(s[0]) then TrimStart(s[1..]) else s
  }

  /** What `trimStart` keeps is a suffix of `s`, and what it drops is whitespace. */
  lemma {:induction false} TrimStartSuffix(s: string)
    ensures TrimStart(s) == s[|s| - |TrimStart(s)|..]
    ensures AllSpace(s[..|s| - |TrimStart(s)|])
  {
    if s != [] && IsSpace(s[0]) {
      var r := TrimStart(s[1..]);
      TrimStartSuffix(s[1..]);
      assert s[..|s| - |r|] == [s[0]] + s[1..][..|s| - 1 - |r|];
    }
  }

  /** `trimEnd`: drops the trailing whitespace run. */
  function TrimEnd(s: string): (r: string)
    ensures |r| <= |s|
    ensures r == [] || !IsSpace(r[|r| - 1])
  {
    if s != [] && IsSpace(s[|s| - 1]) then TrimEnd(s[..|s| - 1]) else s
  }

  /** What `trimEnd` keeps is a prefix of `s`, and what it drops is whitespace. */
  lemma {:induction false} TrimEndPrefix(s: string)
    ensures TrimEnd(s) == s[..|TrimEnd(s)|]
    ensures AllSpace(s[|TrimEnd(s)|..])
  {
    if s != [] && IsSpace(s[|s| - 1]) {
      var r := TrimEnd(s[..|s| - 1]);
      TrimEndPrefix(s[..|s| - 1]);
      assert s[|r|..] == s[..|s| - 1][|r|..] + [s[|s| - 1]];
    }
  }

  /**
   * `String.prototype.trim`: what is left of `s` once the leading and the
   * trailing whitespace are removed. It is empty exactly when `s` is all
   * whitespace, and otherwise starts and ends with a non-space character.
   */
  function Trim(s: string): (r: string)
    ensures |r| <= |s|
    ensures r == [] <==> AllSpace(s)
    ensures r == [] || (!IsSpace(r[0]) && !IsSpace(r[|r| - 1]))
  {
    var t := TrimStart(s);
    assert (TrimEnd(t) == []) == AllSpace(s) by {
      TrimStartSuffix(s);
      TrimEndPrefix(t);
      assert s == s[..|s| - |t|] + t;
      assert TrimEnd(t) == [] ==> t == t[..0] + t[0..];
    }
    assert TrimEnd(t) == [] || TrimEnd(t)[0] == t[0] by {
      TrimEndPrefix(t);
    }
    TrimEnd(t)
  }

  /** What `trim` keeps is one slice of `s`, and everything it drops is whitespace. */
  lemma TrimSlice(s: string) returns (k: nat)
    ensures k + |Trim(s)| <= |s| && Trim(s) == s[k..k + |Trim(s)|]
    ensures AllSpace(s[..k]) && AllSpace(s[k + |Trim(s)|..])
  {
    var t := TrimStart(s);
    var r := TrimEnd(t);
    TrimStartSuffix(s);
    TrimEndPrefix(t);
    k := |s| - |t|;
    assert s[k..k + |r|] == t[..|r|];
    assert s[k + |r|..] == t[|r|..];
  }

  /** A string that `trim` leaves as it is. */
  predicate Trimmed(s: string)
  {
    s == [] || (!IsSpace(s[0]) && !IsSpace(s[|s| - 1]))
  }

  lemma TrimOfTrimmed(s: string)
    requires Trimmed(s)
    ensures Trim(s) == s
  {
    assert TrimStart(s) == s;
    assert TrimEnd(s) == s;
  }

  lemma NotAllSpaceAfter(p: string, q: string)
    requires !AllSpace(q)
    ensures !AllSpace(p + q)
  {
    var i :| 0 <= i < |q| && !IsSpace(q[i]);
    assert (p + q)[|p| + i] == q[i];
  }

  /** Whitespace appended to `p` is exactly what `trimEnd` takes away again. */
  lemma {:induction false} TrimEndAppendSpace(p: string, q: string)
    requires AllSpace(q)
    ensures TrimEnd(p + q) == TrimEnd(p)
    decreases |q|
  {
    if q == [] {
      assert p + q == p;
    } else {
      var q' := q[..|q| - 1];
      assert (p + q)[..|p + q| - 1] == p + q';
      assert (p + q)[|p + q| - 1] == q[|q| - 1];
      TrimEndAppendSpace(p, q');
    }
  }

  /** When `q` has a visible character, `trimEnd` of `p + q` leaves `p` alone and trims `q`. */
  lemma {:induction false} TrimEndAppendVisible(p: string, q: string)
    requires !AllSpace(q)
    ensures TrimEnd(p + q) == p + TrimEnd(q)
    decreases |q|
  {
    var q' := q[..|q| - 1];
    assert (p + q)[..|p + q| - 1] == p + q';
    assert (p + q)[|p + q| - 1] == q[|q| - 1];
    if IsSpace(q[|q| - 1]) {
      assert !AllSpace(q') by {
        if AllSpace(q') {
          forall i | 0 <= i < |q|
            ensures IsSpace(q[i])
          {
            if i < |q| - 1 {
              assert q[i] == q'[i];
            }
          }
        }
      }
      TrimEndAppendVisible(p, q');
    }
  }

  /**
   * `trim` of a text that opens with a head beginning and ending in a visible
   * character keeps the head and trims only the end of what follows it.
   */
  lemma TrimAfterHead(head: string, s: string)
    requires head != [] && !IsSpace(head[0]) && !IsSpace(head[|head| - 1])
    ensures Trim(head + s) == head + TrimEnd(s)
  {
    assert (head + s)[0] == head[0];
    assert TrimStart(head + s) == head + s;
    if AllSpace(s) {
      TrimEndAppendSpace(head, s);
      TrimEndAppendSpace([], s);
      assert [] + s == s;
      assert TrimEnd(head) == head;
      assert head + TrimEnd(s) == head;
    } else {
      TrimEndAppendVisible(head, s);
    }
  }

  /** The non-whitespace characters of `s`, in order. */
  function Visible(s: string): (r: string)
    ensures |r| <= |s|
  {
    if s == [] then [] else (if IsSpace(s[0]) then [] else [s[0]]) + Visible(s[1..])
  }

  lemma {:induction false} VisibleAppend(a: string, b: string)
    ensures Visible(a + b) == Visible(a) + Visible(b)
  {
    if a == [] {
      assert a + b == b;
    } else {
      assert (a + b)[1..] == a[1..] + b;
      VisibleAppend(a[1..], b);
    }
  }

  lemma {:induction false} VisibleOfSpace(s: string)
    requires AllSpace(s)
    ensures Visible(s) == []
  {
    if s != [] {
      VisibleOfSpace(s[1..]);
    }
  }

  /** Trimming removes whitespace only: every other character survives, in order. */
  lemma TrimKeepsVisible(s: string)
    ensures Visible(Trim(s)) == Visible(s)
  {
    var r := Trim(s);
    var k := TrimSlice(s);
    assert s == s[..k] + r + s[k + |r|..];
    VisibleAppend(s[..k] + r, s[k + |r|..]);
    VisibleAppend(s[..k], r);
    VisibleOfSpace(s[..k]);
    VisibleOfSpace(s[k + |r|..]);
  }

  // ----- decimal numerals -----

  predicate IsDigit(c: char)
  {
    '0' <= c <= '9'
  }

  predicate AllDigits(s: string)
  {
    forall i :: 0 <= i < |s| ==> IsDigit(s[i])
  }

  function Digit(d: nat): (c: char)
    requires d < 10
    ensures IsDigit(c) && c as int - '0' as int == d
  {
    (d + '0' as int) as char
  }

  /** `String(n)` for a non-negative integer: its decimal numeral, without leading zeros. */
  function Decimal(n: nat): (r: string)
    ensures |r| >= 1 && AllDigits(r)
    ensures r[0] == '0' ==> n == 0
    ensures n < 10 <==> |r| == 1
    decreases n
  {
    if n < 10 then [Digit(n)] else Decimal(n / 10) + [Digit(n % 10)]
  }

  /** `Number(s)` (the unary `+`) for a string of ASCII digits; the empty string gives 0. */
  function DigitsValue(s: string): nat
    requires AllDigits(s)
  {
    if s == [] then 0 else DigitsValue(s[..|s| - 1]) * 10 + (s[|s| - 1] as int - '0' as int)
  }

  function Pow10(k: nat): nat
  {
    if k == 0 then 1 else 10 * Pow10(k - 1)
  }

  /** A numeral of `k` digits is worth less than `10^k`. */
  lemma {:induction false} DigitsBound(s: string)
    requires AllDigits(s)
    ensures DigitsValue(s) < Pow10(|s|)
  {
    if s != [] {
      var init := s[..|s| - 1];
      DigitsBound(init);
      var v, p := DigitsValue(init), Pow10(|init|);
      assert v + 1 <= p;
      assert (v + 1) * 10 <= p * 10;
      assert Pow10(|s|) == p * 10;
    }
  }

  lemma TwoDigitsValue(s: string)
    requires |s| == 2 && AllDigits(s)
    ensures DigitsValue(s) == (s[0] as int - '0' as int) * 10 + (s[1] as int - '0' as int)
  {
    var head := s[..1];
    assert head[..0] == [];
    assert DigitsValue(head) == s[0] as int - '0' as int;
    assert s[..|s| - 1] == head;
  }

  /** Reading back the numeral `String(n)` gives `n`. */
  lemma {:induction false} DecimalValue(n: nat)
    ensures DigitsValue(Decimal(n)) == n
    decreases n
  {
    if n >= 10 {
      var d := Decimal(n);
      assert d[..|d| - 1] == Decimal(n / 10);
      DecimalValue(n / 10);
    }
  }

  lemma DecimalLength(n: nat)
    ensures 10 <= n < 100 ==> |Decimal(n)| == 2
    ensures 1000 <= n < 10000 ==> |Decimal(n)| == 4
  {
    if 1000 <= n < 10000 {
      assert Decimal(n) == Decimal(n / 10) + [Digit(n % 10)];
      assert Decimal(n / 10) == Decimal(n / 100) + [Digit(n / 10 % 10)];
    }
  }

  /** `String(n).padStart(2, "0")`: two digits below 100, the plain numeral above. */
  function Pad2(n: nat): (r: string)
    ensures AllDigits(r) && DigitsValue(r) == n
    ensures n < 100 ==> |r| == 2
    ensures |r| >= 2
  {
    var d := Decimal(n);
    DecimalValue(n);
    DecimalLength(n);
    if |d| < 2 then
      var r := "0" + d;
      assert r[..|r| - 1] == "0";
      r
    else d
  }

  // ----- one-character separators -----

  /** The index of the first `c` in `s`, or `|s|` when there is none (`indexOf` with -1 mapped to the end). */
  function Find(s: string, c: char): (i: nat)
    ensures i <= |s|
    ensures i < |s| ==> s[i] == c
    ensures c !in s[..i]
  {
    if s == [] || s[0] == c then 0
    else
      var j := Find(s[1..], c);
      assert s[..1 + j] == [s[0]] + s[1..][..j];
      1 + j
  }

  /** The first `c` sits at `k` when `s[k]` is a `c` and none comes before it. */
  lemma {:induction false} FindAt(s: string, c: char, k: nat)
    requires k < |s| && s[k] == c && c !in s[..k]
    ensures Find(s, c) == k
  {
    if k > 0 {
      assert s[..k][0] == s[0];
      assert s[1..][..k - 1] == s[..k][1..];
      FindAt(s[1..], c, k - 1);
    }
  }

  lemma FindAfter(a: string, b: string, c: char)
    requires c !in a
    ensures Find(a + [c] + b, c) == |a|
  {
    var s := a + [c] + b;
    assert s[..|a|] == a;
    FindAt(s, c, |a|);
  }

  lemma FindAbsent(a: string, c: char)
    requires c !in a
    ensures Find(a, c) == |a|
  {
  }

  /** `s.split(sep)`: the pieces between the separators, at least one. */
  function Split(s: string, sep: char): (parts: seq<string>)
    ensures |parts| >= 1
    ensures forall p :: p in parts ==> sep !in p
    decreases |s|
  {
    var i := Find(s, sep);
    if i == |s| then [s] else [s[..i]] + Split(s[i + 1..], sep)
  }

  /** `parts.join(sep)`. */
  function Join(parts: seq<string>, sep: char): string
  {
    if |parts| == 0 then []
    else if |parts| == 1 then parts[0]
    else parts[0] + [sep] + Join(parts[1..], sep)
  }

  lemma JoinThree(x: string, y: string, z: string, sep: char)
    ensures Join([x, y, z], sep) == x + [sep] + y + [sep] + z
  {
    assert [x, y, z][1..] == [y, z];
    assert [y, z][1..] == [z];
    assert Join([y, z], sep) == y + [sep] + z;
  }

  /**
   * When the last piece has a visible character, `trimEnd` of a join trims
   * that last piece and nothing before it.
   */
  lemma {:induction false} JoinTrimEnd(parts: seq<string>, sep: char)
    requires |parts| >= 1 && !AllSpace(parts[|parts| - 1])
    ensures TrimEnd(Join(parts, sep)) == Join(parts[..|parts| - 1] + [TrimEnd(parts[|parts| - 1])], sep)
    ensures !AllSpace(Join(parts, sep))
  {
    var k := |parts| - 1;
    var trimmed := parts[..k] + [TrimEnd(parts[k])];
    if k == 0 {
      assert trimmed == [TrimEnd(parts[0])];
    } else {
      var rest := parts[1..];
      JoinTrimEnd(rest, sep);
      var j := Join(rest, sep);
      TrimEndAppendVisible(parts[0] + [sep], j);
      NotAllSpaceAfter(parts[0] + [sep], j);
      assert trimmed[0] == parts[0];
      assert trimmed[1..] == rest[..|rest| - 1] + [TrimEnd(rest[|rest| - 1])];
    }
  }

  /** A join whose last piece ends in a visible character is left alone by trimming its end. */
  lemma JoinEndsVisible(parts: seq<string>, sep: char)
    requires |parts| >= 1 && !AllSpace(parts[|parts| - 1]) && TrimEnd(parts[|parts| - 1]) == parts[|parts| - 1]
    ensures TrimEnd(Join(parts, sep)) == Join(parts, sep)
  {
    JoinTrimEnd(parts, sep);
    assert parts[..|parts| - 1] + [parts[|parts| - 1]] == parts;
  }

  /** A piece free of the separator, then the separator: `split` peels that piece off first. */
  lemma SplitStep(a: string, sep: char, rest: string)
    requires sep !in a
    ensures Split(a + [sep] + rest, sep) == [a] + Split(rest, sep)
  {
    var s := a + [sep] + rest;
    FindAfter(a, rest, sep);
    assert s[..|a|] == a;
    assert s[|a| + 1..] == rest;
  }

  /** Splitting a join gives the pieces back when no piece holds the separator. */
  lemma {:induction false} SplitJoin(parts: seq<string>, sep: char)
    requires |parts| >= 1
    requires forall i :: 0 <= i < |parts| ==> sep !in parts[i]
    ensures Split(Join(parts, sep), sep) == parts
  {
    if |parts| == 1 {
      FindAbsent(parts[0], sep);
    } else {
      SplitStep(parts[0], sep, Join(parts[1..], sep));
      SplitJoin(parts[1..], sep);
      assert parts == [parts[0]] + parts[1..];
    }
  }
}
