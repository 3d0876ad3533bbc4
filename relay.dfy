/**
 * The AI relay's request handling (server/index.js): the shared-token gate
 * on `/api`, the "image or company hint" guard, the `{…}` span cut out of
 * the model's text, the `CheatSheet` shape check, `clampBullet`, and the
 * response built from an accepted sheet. The OpenAI calls and `JSON.parse`
 * are inputs: the model's replies are parameters and the parser is a
 * function parameter.
 */
module Relay {
  import opened Wrappers
  import opened Strings

  // ----- clampBullet -----

  /** No whitespace other than ' ', and never two whitespace characters in a row. */
  predicate SingleSpaced(s: string)
  {
    (forall i :: 0 <= i < |s| && IsSpace(s[i]) ==> s[i] == ' ') &&
    (forall i :: 0 <= i < |s| - 1 && IsSpace(s[i]) ==> !IsSpace(s[i + 1]))
  }

  /** `replace(/\s+/g, " ")`: every maximal whitespace run becomes one space. */
  function Collapse(s: string): (r: string)
    ensures |r| <= |s|
    ensures r == [] <==> s == []
    ensures r != [] ==> (IsSpace(r[0]) <==> IsSpace(s[0]))
    decreases |s|
  {
    if s == [] then []
    else if IsSpace(s[0]) then " " + Collapse(TrimStart(s[1..]))
    else [s[0]] + Collapse(s[1..])
  }

  /** `slice(0, n)`. */
  function Take<T>(s: seq<T>, n: nat): (r: seq<T>)
    ensures |r| <= n && r <= s
    ensures |s| <= n ==> r == s
    ensures |s| > n ==> |r| == n
  {
    if |s| <= n then s else s[..n]
  }

  const BulletLimit: nat := 88

  /** `clampBullet`: whitespace runs collapsed to one space, trimmed, cut to 88 characters. */
  function ClampBullet(s: string): string
  {
    Take(Trim(Collapse(s)), BulletLimit)
  }

  lemma TrimStartVisible(s: string)
    ensures Visible(TrimStart(s)) == Visible(s)
  {
    TrimStartSuffix(s);
    var k := |s| - |TrimStart(s)|;
    assert s == s[..k] + TrimStart(s);
    VisibleAppend(s[..k], TrimStart(s));
    VisibleOfSpace(s[..k]);
  }

  /** Collapsing leaves no whitespace but single spaces, and keeps every other character in order. */
  lemma {:induction false} CollapseShape(s: string)
    ensures SingleSpaced(Collapse(s))
    ensures Visible(Collapse(s)) == Visible(s)
    decreases |s|
  {
    if s != [] {
      if IsSpace(s[0]) {
        var t := TrimStart(s[1..]);
        var c := Collapse(t);
        CollapseShape(t);
        TrimStartVisible(s[1..]);
        assert Collapse(s) == " " + c;
        assert Collapse(s)[1..] == c;
        VisibleAppend(" ", c);
        VisibleAppend([s[0]], s[1..]);
        assert s == [s[0]] + s[1..];
      } else {
        var c := Collapse(s[1..]);
        CollapseShape(s[1..]);
        assert Collapse(s) == [s[0]] + c;
        VisibleAppend([s[0]], c);
        VisibleAppend([s[0]], s[1..]);
        assert s == [s[0]] + s[1..];
      }
    }
  }

  /** Collapsing changes nothing in a single-spaced string. */
  lemma {:induction false} CollapseOfSingleSpaced(s: string)
    requires SingleSpaced(s)
    ensures Collapse(s) == s
    decreases |s|
  {
    if s != [] {
      assert SingleSpaced(s[1..]) by {
        forall i | 0 <= i < |s| - 1 ensures s[1..][i] == s[i + 1] { }
      }
      CollapseOfSingleSpaced(s[1..]);
      if IsSpace(s[0]) {
        assert s[1..] == [] || !IsSpace(s[1..][0]);
        assert TrimStart(s[1..]) == s[1..];
        assert s == [s[0]] + s[1..];
      } else {
        assert s == [s[0]] + s[1..];
      }
    }
  }

  /**
   * Each whitespace run becomes exactly one space: the words on either side of
   * a run stay apart, separated by one space, and are collapsed on their own.
   */
  lemma CollapseSeparates(x: string, w: string, y: string)
    requires x == [] || !IsSpace(x[|x| - 1])
    requires w != [] && AllSpace(w)
    requires y == [] || !IsSpace(y[0])
    ensures Collapse(x + w + y) == Collapse(x) + " " + Collapse(y)
  {
    CollapseBeforeRun(x, w, y);
    Associative(x, w, y);
    Associative(Collapse(x), " ", Collapse(y));
  }

  /**
   * Regrouping a concatenation. It is proved on its own so that the sequence
   * equality it needs stays out of the larger proofs that use it.
   */
  lemma Associative(a: string, b: string, c: string)
    ensures a + b + c == a + (b + c)
  {
  }

  /** `CollapseSeparates` with the concatenations grouped to the right. */
  lemma {:induction false} CollapseBeforeRun(x: string, w: string, y: string)
    requires x == [] || !IsSpace(x[|x| - 1])
    requires w != [] && AllSpace(w)
    requires y == [] || !IsSpace(y[0])
    ensures Collapse(x + (w + y)) == Collapse(x) + (" " + Collapse(y))
    decreases |x|, 1
  {
    if x == [] {
      CollapseRunFirst(w, y);
      assert x + (w + y) == w + y;
    } else if !IsSpace(x[0]) {
      SeparatesAfterWord(x, w, y);
    } else {
      SeparatesAfterSpace(x, w, y);
    }
  }

  lemma {:induction false} SeparatesAfterWord(x: string, w: string, y: string)
    requires x != [] && !IsSpace(x[0]) && !IsSpace(x[|x| - 1])
    requires w != [] && AllSpace(w)
    requires y == [] || !IsSpace(y[0])
    ensures Collapse(x + (w + y)) == Collapse(x) + (" " + Collapse(y))
    decreases |x|, 0
  {
    var a := x[1..];
    assert a != [] ==> a[|a| - 1] == x[|x| - 1];
    CollapseBeforeRun(a, w, y);
    CollapseWordFirst(x, w + y);
    Associative([x[0]], Collapse(a), " " + Collapse(y));
  }

  lemma {:induction false} SeparatesAfterSpace(x: string, w: string, y: string)
    requires x != [] && IsSpace(x[0]) && !IsSpace(x[|x| - 1])
    requires w != [] && AllSpace(w)
    requires y == [] || !IsSpace(y[0])
    ensures Collapse(x + (w + y)) == Collapse(x) + (" " + Collapse(y))
    decreases |x|, 0
  {
    var a := x[1..];
    assert a[|a| - 1] == x[|x| - 1];
    TrimStartAppend(a, w + y, |a| - 1);
    var t := TrimStart(a);
    TrimStartSuffix(a);
    assert t[|t| - 1] == a[|a| - 1];
    CollapseBeforeRun(t, w, y);
    CollapseSpaceFirst(x, w + y);
    Associative(" ", Collapse(t), " " + Collapse(y));
  }

  /** Two words with a run of mixed whitespace between them keep exactly one space. */
  lemma CollapseTwoWords()
    ensures Collapse("a \t\n b") == "a b"
  {
    CollapseSeparates("a", " \t\n ", "b");
    assert "a" + " \t\n " + "b" == "a \t\n b";
  }

  lemma CollapseRunFirst(w: string, y: string)
    requires w != [] && AllSpace(w)
    requires y == [] || !IsSpace(y[0])
    ensures Collapse(w + y) == " " + Collapse(y)
  {
    var s := w + y;
    assert s[0] == w[0] && s[1..] == w[1..] + y;
    assert AllSpace(w[1..]) by {
      forall i | 0 <= i < |w| - 1 ensures IsSpace(w[1..][i]) {
        assert w[1..][i] == w[i + 1];
      }
    }
    TrimStartSpaces(w[1..], y);
  }

  lemma CollapseWordFirst(x: string, rest: string)
    requires x != [] && !IsSpace(x[0])
    ensures Collapse(x + rest) == [x[0]] + Collapse(x[1..] + rest)
    ensures Collapse(x) == [x[0]] + Collapse(x[1..])
  {
    assert (x + rest)[0] == x[0] && (x + rest)[1..] == x[1..] + rest;
  }

  lemma CollapseSpaceFirst(x: string, rest: string)
    requires x != [] && IsSpace(x[0])
    ensures Collapse(x + rest) == " " + Collapse(TrimStart(x[1..] + rest))
    ensures Collapse(x) == " " + Collapse(TrimStart(x[1..]))
  {
    assert (x + rest)[0] == x[0] && (x + rest)[1..] == x[1..] + rest;
  }

  /** `trimStart` drops a whitespace prefix up to a non-space character. */
  lemma {:induction false} TrimStartSpaces(a: string, y: string)
    requires AllSpace(a)
    requires y == [] || !IsSpace(y[0])
    ensures TrimStart(a + y) == y
    decreases |a|
  {
    if a == [] {
      assert a + y == y;
    } else {
      assert (a + y)[0] == a[0] && (a + y)[1..] == a[1..] + y;
      assert AllSpace(a[1..]) by {
        forall i | 0 <= i < |a| - 1 ensures IsSpace(a[1..][i]) {
          assert a[1..][i] == a[i + 1];
        }
      }
      TrimStartSpaces(a[1..], y);
    }
  }

  /** When `a` holds a non-space character at `k`, `trimStart` stops inside `a`, keeping that character. */
  lemma {:induction false} TrimStartAppend(a: string, b: string, k: nat)
    requires k < |a| && !IsSpace(a[k])
    ensures TrimStart(a + b) == TrimStart(a) + b
    ensures |TrimStart(a)| >= |a| - k
    decreases k
  {
    assert (a + b)[0] == a[0];
    if IsSpace(a[0]) {
      assert (a + b)[1..] == a[1..] + b;
      assert a[1..][k - 1] == a[k];
      TrimStartAppend(a[1..], b, k - 1);
    }
  }

  /** Any slice of a single-spaced string is single-spaced. */
  lemma SingleSpacedSlice(s: string, a: nat, b: nat)
    requires a <= b <= |s| && SingleSpaced(s)
    ensures SingleSpaced(s[a..b])
  {
    var t := s[a..b];
    forall i | 0 <= i < |t| ensures t[i] == s[a + i] { }
  }

  /**
   * A clamped bullet is the first 88 characters of the collapsed and trimmed
   * input, or all of it when it is shorter; it does not start with whitespace
   * and is single-spaced.
   */
  lemma ClampBulletShape(s: string)
    ensures var r, t := ClampBullet(s), Trim(Collapse(s));
      |r| == (if |t| <= BulletLimit then |t| else BulletLimit) && r <= t &&
      (r == [] || !IsSpace(r[0])) && SingleSpaced(r)
  {
    CollapseShape(s);
    TrimKeepsSingleSpaced(Collapse(s));
    TakeKeepsSingleSpaced(Trim(Collapse(s)), BulletLimit);
  }

  lemma TrimKeepsSingleSpaced(s: string)
    requires SingleSpaced(s)
    ensures SingleSpaced(Trim(s))
  {
    var k := TrimSlice(s);
    SingleSpacedSlice(s, k, k + |Trim(s)|);
  }

  lemma TakeKeepsSingleSpaced(s: string, n: nat)
    requires SingleSpaced(s)
    ensures SingleSpaced(Take(s, n))
  {
    SingleSpacedSlice(s, 0, |Take(s, n)|);
    assert Take(s, n) == s[..|Take(s, n)|];
  }

  /** `clampBullet` keeps its input exactly when it is single-spaced, trimmed and at most 88 characters long. */
  lemma ClampBulletFixed(s: string)
    ensures ClampBullet(s) == s <==> SingleSpaced(s) && Trimmed(s) && |s| <= BulletLimit
  {
    if SingleSpaced(s) && Trimmed(s) && |s| <= BulletLimit {
      ClampBulletKeeps(s);
    }
    if ClampBullet(s) == s {
      ClampBulletFixedShape(s);
    }
  }

  lemma ClampBulletKeeps(s: string)
    requires SingleSpaced(s) && Trimmed(s) && |s| <= BulletLimit
    ensures ClampBullet(s) == s
  {
    CollapseOfSingleSpaced(s);
    TrimOfTrimmed(s);
  }

  lemma ClampBulletFixedShape(s: string)
    requires ClampBullet(s) == s
    ensures SingleSpaced(s) && Trimmed(s) && |s| <= BulletLimit
  {
    ClampBulletShape(s);
    var t := Trim(Collapse(s));
    assert |t| <= |s|;
    assert s == t;
  }

  /**
   * The cut comes after the trim, so a clamped bullet can end in a space, and
   * clamping it again gives something else.
   */
  lemma ClampBulletCanEndInSpace(w: string)
    requires |w| == BulletLimit - 1
    requires forall i :: 0 <= i < |w| ==> !IsSpace(w[i])
    ensures ClampBullet(w + " b") == w + " "
    ensures ClampBullet(ClampBullet(w + " b")) == w
  {
    ClampCutsAfterSpace(w);
    ClampDropsEndSpace(w);
  }

  lemma ClampCutsAfterSpace(w: string)
    requires |w| == BulletLimit - 1
    requires forall i :: 0 <= i < |w| ==> !IsSpace(w[i])
    ensures ClampBullet(w + " b") == w + " "
  {
    var s := w + " b";
    assert forall i :: 0 <= i < |w| ==> s[i] == w[i];
    CollapseOfSingleSpaced(s);
    TrimOfTrimmed(s);
    assert s[..BulletLimit] == w + " ";
  }

  lemma ClampDropsEndSpace(w: string)
    requires |w| == BulletLimit - 1
    requires forall i :: 0 <= i < |w| ==> !IsSpace(w[i])
    ensures ClampBullet(w + " ") == w
  {
    var u := w + " ";
    assert forall i :: 0 <= i < |w| ==> u[i] == w[i];
    CollapseOfSingleSpaced(u);
    assert u[..|u| - 1] == w;
    assert TrimEnd(u) == TrimEnd(w);
    assert TrimEnd(w) == w;
    assert TrimStart(u) == u;
  }

  // ----- the `{…}` span: `text.match(/\{[\s\S]*\}/)` -----

  /** The index of the last `c` in `s` (`lastIndexOf`), or `None`. */
  function FindLast(s: string, c: char): (r: Option<nat>)
    ensures r.Some? ==> r.value < |s| && s[r.value] == c && forall m :: r.value < m < |s| ==> s[m] != c
    ensures r.None? ==> forall m :: 0 <= m < |s| ==> s[m] != c
  {
    if s == [] then None
    else if s[|s| - 1] == c then Some(|s| - 1)
    else FindLast(s[..|s| - 1], c)
  }

  /**
   * The greedy match: from the first '{' to the last '}' after it, both
   * included; no match when no '}' follows a '{'.
   */
  function ExtractSpan(text: string): Option<string>
  {
    var i := Find(text, '{');
    var j := FindLast(text, '}');
    if i < |text| && j.Some? && i < j.value then Some(text[i..j.value + 1]) else None
  }

  /**
   * There is a match exactly when some '}' comes after some '{'; the match
   * then runs from the first '{' of the text to its last '}'.
   */
  lemma ExtractSpanSpec(text: string)
    ensures ExtractSpan(text).Some? <==> exists i, j :: 0 <= i < j < |text| && text[i] == '{' && text[j] == '}'
    ensures ExtractSpan(text).Some? ==>
      exists i, j :: 0 <= i < j < |text| && ExtractSpan(text).value == text[i..j + 1] &&
        text[i] == '{' && text[j] == '}' &&
        (forall m :: 0 <= m < i ==> text[m] != '{') && (forall m :: j < m < |text| ==> text[m] != '}')
  {
    var i := Find(text, '{');
    var j := FindLast(text, '}');
    assert forall m :: 0 <= m < i ==> text[..i][m] == text[m];
    if exists a, b :: 0 <= a < b < |text| && text[a] == '{' && text[b] == '}' {
      var a, b :| 0 <= a < b < |text| && text[a] == '{' && text[b] == '}';
      assert i <= a;
    }
  }

  // ----- the CheatSheet schema -----

  /** A value `JSON.parse` can return. */
  datatype Json =
    | JNull
    | JBool(b: bool)
    | JNumber(n: real)
    | JString(s: string)
    | JArray(items: seq<Json>)
    | JObject(fields: map<string, Json>)

  /** What `JSON.parse` does with a text: a value, or a thrown `SyntaxError` and its message. */
  datatype ParseOutcome = Parsed(value: Json) | SyntaxError(message: string)

  /** A sheet that passed `CheatSheet.safeParse`; other keys of the object are dropped. */
  datatype Sheet = Sheet(company: string, bullets: seq<string>)

  /** `z.string()` on one value. */
  function AsString(v: Json): Option<string>
  {
    if v.JString? then Some(v.s) else None
  }

  /** `z.array(z.string()).min(3).max(4)` on the items of an array. */
  function AsBullets(items: seq<Json>): (r: Option<seq<string>>)
    ensures r.Some? ==> |r.value| == |items| && forall i :: 0 <= i < |items| ==> items[i] == JString(r.value[i])
    ensures r.None? ==> |items| < 3 || |items| > 4 || exists i :: 0 <= i < |items| && !items[i].JString?
  {
    if 3 <= |items| <= 4 && forall i :: 0 <= i < |items| ==> items[i].JString? then
      Some(seq(|items|, i requires 0 <= i < |items| => items[i].s))
    else None
  }

  /** `CheatSheet.safeParse`: an object whose "company" is a string of at least one character and whose "bullets" are 3 to 4 strings. */
  function CheckSheet(v: Json): Option<Sheet>
  {
    if !v.JObject? || "company" !in v.fields || "bullets" !in v.fields then None
    else
      var company := v.fields["company"];
      var bullets := v.fields["bullets"];
      if !company.JString? || |company.s| < 1 || !bullets.JArray? then None
      else match AsBullets(bullets.items)
        case None => None
        case Some(bs) => Some(Sheet(company.s, bs))
  }

  /** The object `{company, bullets}` as the model is asked to write it. */
  function SheetJson(company: string, bullets: seq<string>): Json
  {
    JObject(map["company" := JString(company), "bullets" := JArray(seq(|bullets|, i requires 0 <= i < |bullets| => JString(bullets[i])))])
  }

  /**
   * An accepted sheet is read straight off the object's two keys, and every
   * object holding a company of at least one character and 3 to 4 string
   * bullets is accepted as exactly that sheet, whatever other keys it has.
   */
  lemma CheckSheetSpec(v: Json, company: string, bullets: seq<string>)
    ensures CheckSheet(v).Some? ==>
      v.JObject? && v.fields["company"] == JString(CheckSheet(v).value.company) &&
      |CheckSheet(v).value.company| >= 1 && 3 <= |CheckSheet(v).value.bullets| <= 4 &&
      v.fields["bullets"] == JArray(seq(|CheckSheet(v).value.bullets|, i requires 0 <= i < |CheckSheet(v).value.bullets| => JString(CheckSheet(v).value.bullets[i])))
    ensures v.JObject? && "company" in v.fields && "bullets" in v.fields &&
            v.fields["company"] == JString(company) && |company| >= 1 &&
            v.fields["bullets"] == JArray(seq(|bullets|, i requires 0 <= i < |bullets| => JString(bullets[i]))) &&
            3 <= |bullets| <= 4
            ==> CheckSheet(v) == Some(Sheet(company, bullets))
    ensures CheckSheet(SheetJson(company, bullets)) == (if |company| >= 1 && 3 <= |bullets| <= 4 then Some(Sheet(company, bullets)) else None)
  {
    if CheckSheet(v).Some? {
      var bs := CheckSheet(v).value.bullets;
      var items := v.fields["bullets"].items;
      assert items == seq(|bs|, i requires 0 <= i < |bs| => JString(bs[i]));
    }
    StringItemsAccepted(bullets);
    var w := SheetJson(company, bullets);
    assert w.fields["bullets"] == JArray(seq(|bullets|, i requires 0 <= i < |bullets| => JString(bullets[i])));
  }

  /** 3 to 4 strings, as JSON items, are read back as themselves. */
  lemma StringItemsAccepted(bullets: seq<string>)
    ensures var items := seq(|bullets|, i requires 0 <= i < |bullets| => JString(bullets[i]));
      AsBullets(items) == if 3 <= |bullets| <= 4 then Some(bullets) else None
  {
    var items := seq(|bullets|, i requires 0 <= i < |bullets| => JString(bullets[i]));
    if 3 <= |bullets| <= 4 {
      assert forall i :: 0 <= i < |items| ==> items[i] == JString(bullets[i]);
      assert seq(|items|, i requires 0 <= i < |items| => items[i].s) == bullets;
    }
  }

  // ----- the route -----

  datatype Body = ErrorBody(error: string) | SheetBody(company: string, bullets: seq<string>)

  datatype Response = Response(status: nat, body: Body)

  /** What one `openai.responses.create` call gave: the reply's text, or the error it threw and that error's message. */
  datatype Reply = Answer(text: string) | ApiFailure(message: string)

  /**
   * The `/api` middleware, given `API_TOKEN` and the `x-api-token` header:
   * `None` is `next()`.
   */
  function Gate(required: Option<string>, got: Option<string>): (r: Option<Response>)
    ensures r.Some? ==> r.value == Response(401, ErrorBody("Unauthorized"))
  {
    if required.None? || required.value == [] || got == required then None
    else Some(Response(401, ErrorBody("Unauthorized")))
  }

  /** The outer `catch`: the error's message, or "Server error" when it has none. */
  function ServerError(message: string): (r: Response)
    ensures r.status == 500 && r.body.ErrorBody? && r.body.error != []
  {
    Response(500, ErrorBody(if message == [] then "Server error" else message))
  }

  /** The JSON values `!json` treats as missing. */
  predicate Falsy(v: Json)
  {
    v == JNull || v == JBool(false) || v == JNumber(0.0) || v == JString("")
  }

  /** The first pass, whose parse error is swallowed into `null`. */
  function FirstPass(text: string, parse: string -> ParseOutcome): Option<Json>
  {
    match ExtractSpan(text)
    case None => None
    case Some(span) => if parse(span).Parsed? then Some(parse(span).value) else None
  }

  /** `safeParse` and the response built from an accepted sheet. */
  function Respond(v: Json): Response
  {
    match CheckSheet(v)
    case None => Response(500, ErrorBody("AI returned unexpected format."))
    case Some(sheet) =>
      var bs := sheet.bullets;
      Response(200, SheetBody(Trim(sheet.company), Take(seq(|bs|, i requires 0 <= i < |bs| => ClampBullet(bs[i])), 4)))
  }

  /**
   * `POST /api/cheatsheet` past the gate: the hint guard, the first model
   * reply, the second one only when the first gave no usable JSON, then the
   * shape check. A throw anywhere ends in the outer `catch`.
   */
  function Cheatsheet(companyHint: Option<string>, hasImage: bool, first: Reply, second: Reply,
                      parse: string -> ParseOutcome): (r: Response)
    ensures r.status == 200 || r.status == 400 || r.status == 500
  {
    var hint := Trim(companyHint.GetOr(""));
    if !hasImage && hint == [] then Response(400, ErrorBody("Provide an image or a company name."))
    else match first
      case ApiFailure(m) => ServerError(m)
      case Answer(text) =>
        var json := FirstPass(text, parse);
        if json.Some? && !Falsy(json.value) then Respond(json.value)
        else match second
          case ApiFailure(m) => ServerError(m)
          case Answer(t2) =>
            match ExtractSpan(t2)
            case None => Respond(JNull)
            case Some(span) => if parse(span).SyntaxError? then ServerError(parse(span).message) else Respond(parse(span).value)
  }

  /** A request to `/api/cheatsheet`, through the middleware. */
  function Route(required: Option<string>, got: Option<string>, companyHint: Option<string>, hasImage: bool,
                 first: Reply, second: Reply, parse: string -> ParseOutcome): Response
  {
    match Gate(required, got)
    case Some(r) => r
    case None => Cheatsheet(companyHint, hasImage, first, second, parse)
  }

  /**
   * A request is refused with 401 exactly when a non-empty token is configured
   * and the header does not carry it; the handler never answers 401 itself.
   */
  lemma RouteUnauthorized(required: Option<string>, got: Option<string>, companyHint: Option<string>, hasImage: bool,
                          first: Reply, second: Reply, parse: string -> ParseOutcome)
    ensures var r := Route(required, got, companyHint, hasImage, first, second, parse);
      (r.status == 401 <==> required.Some? && required.value != [] && got != required) &&
      (r.status == 401 ==> r.body == ErrorBody("Unauthorized"))
  {
  }

  /** Past the gate, the answer is 400 exactly when there is no image and the hint is blank. */
  lemma RouteBadRequest(required: Option<string>, got: Option<string>, companyHint: Option<string>, hasImage: bool,
                        first: Reply, second: Reply, parse: string -> ParseOutcome)
    requires Gate(required, got).None?
    ensures var r := Route(required, got, companyHint, hasImage, first, second, parse);
      (r.status == 400 <==> !hasImage && AllSpace(companyHint.GetOr(""))) &&
      (r.status == 400 ==> r.body == ErrorBody("Provide an image or a company name."))
  {
    var r := Route(required, got, companyHint, hasImage, first, second, parse);
    if r.status == 400 {
      assert !hasImage && Trim(companyHint.GetOr("")) == [];
    }
  }

  /** When the first reply holds usable JSON, the second model call is never made: its reply cannot matter. */
  lemma FirstPassDecides(companyHint: Option<string>, hasImage: bool, text: string, second: Reply,
                         parse: string -> ParseOutcome, v: Json)
    requires hasImage || !AllSpace(companyHint.GetOr(""))
    requires FirstPass(text, parse) == Some(v) && !Falsy(v)
    ensures Cheatsheet(companyHint, hasImage, Answer(text), second, parse) == Respond(v)
  {
  }

  /**
   * A falsy first parse (`null`, `false`, 0 or "") counts as no JSON at all:
   * the answer is the one for a first reply with no `{…}` span, which always
   * goes on to the second request.
   */
  lemma FalsyFirstPassRetries(companyHint: Option<string>, hasImage: bool, text: string, second: Reply,
                              parse: string -> ParseOutcome, v: Json)
    requires FirstPass(text, parse) == Some(v) && Falsy(v)
    ensures Cheatsheet(companyHint, hasImage, Answer(text), second, parse) ==
            Cheatsheet(companyHint, hasImage, Answer(""), second, parse)
  {
    assert ExtractSpan("").None?;
  }

  /**
   * The 500 answers: a thrown API error or a second-pass syntax error gives
   * its own message (never an empty one); a missing or malformed sheet gives
   * "AI returned unexpected format.".
   */
  lemma ServerErrors(companyHint: Option<string>, hasImage: bool, text: string, second: Reply,
                     parse: string -> ParseOutcome, m: string)
    requires hasImage || !AllSpace(companyHint.GetOr(""))
    ensures Cheatsheet(companyHint, hasImage, ApiFailure(m), second, parse) ==
            Response(500, ErrorBody(if m == [] then "Server error" else m))
    ensures FirstPass(text, parse).None? ==>
      Cheatsheet(companyHint, hasImage, Answer(text), ApiFailure(m), parse) ==
      Response(500, ErrorBody(if m == [] then "Server error" else m))
    ensures FirstPass(text, parse).None? && second.Answer? && ExtractSpan(second.text).None? ==>
      Cheatsheet(companyHint, hasImage, Answer(text), second, parse) == Response(500, ErrorBody("AI returned unexpected format."))
  {
    assert CheckSheet(JNull).None?;
  }

  /**
   * An accepted sheet gives 200 with the trimmed company and one clamped
   * bullet per input bullet, in order (the `slice(0, 4)` never drops one);
   * anything else gives the "unexpected format" 500.
   */
  lemma RespondSpec(v: Json)
    ensures Respond(v).status == 200 <==> CheckSheet(v).Some?
    ensures CheckSheet(v).None? ==> Respond(v) == Response(500, ErrorBody("AI returned unexpected format."))
    ensures CheckSheet(v).Some? ==>
      var sheet, body := CheckSheet(v).value, Respond(v).body;
      body.SheetBody? && body.company == Trim(sheet.company) && Trimmed(body.company) &&
      |body.bullets| == |sheet.bullets| && 3 <= |body.bullets| <= 4 &&
      forall i :: 0 <= i < |body.bullets| ==>
        body.bullets[i] == ClampBullet(sheet.bullets[i]) && |body.bullets[i]| <= BulletLimit && SingleSpaced(body.bullets[i])
  {
    if CheckSheet(v).Some? {
      CheckSheetSpec(v, "", []);
      var sheet := CheckSheet(v).value;
      forall i | 0 <= i < |sheet.bullets|
        ensures |ClampBullet(sheet.bullets[i])| <= BulletLimit && SingleSpaced(ClampBullet(sheet.bullets[i]))
      {
        ClampBulletShape(sheet.bullets[i]);
      }
    }
  }

  /** `min(1)` is checked before the trim, so a company of one space is accepted and answered as "". */
  lemma BlankCompanyAccepted(bullets: seq<string>)
    requires 3 <= |bullets| <= 4
    ensures Respond(SheetJson(" ", bullets)).status == 200
    ensures Respond(SheetJson(" ", bullets)).body.company == ""
  {
    CheckSheetSpec(JNull, " ", bullets);
    assert AllSpace(" ");
  }
}
