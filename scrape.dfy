/** The `/api/scrape` endpoint: it fetches a page and answers with its body
    text, whitespace-normalised and cut to 15000 characters, or with a
    message saying why there is none. The outcome of the fetch and the text
    of the page's body are inputs. */
module Scrape {
  import opened Optional
  import opened Text

  // ---------------------------------------------------------------------
  // the request and the response

  /** A JSON value as the request body may carry it; arrays and objects are
      not represented. */
  datatype JsonValue = Undefined | Null | Bool(b: bool) | Num(n: int) | Str(s: string)

  /** JavaScript truthiness of those values. */
  predicate Truthy(v: JsonValue)
  {
    match v
    case Undefined => false
    case Null => false
    case Bool(b) => b
    case Num(n) => n != 0
    case Str(s) => s != ""
  }

  /** The parsed request: no body at all, or a body whose `url` field holds a
      value (`Undefined` when the field is missing). */
  datatype Request = NoBody | WithBody(url: JsonValue)

  /** What the inner `try` of the handler meets: `Thrown` when anything in it
      throws (the `fetch` itself, reading the response's text, or parsing the
      page), otherwise the response's status and the text of the page's body
      once scripts, styles and the like are removed. */
  datatype FetchOutcome = Thrown | Responded(status: nat, bodyText: string)

  datatype Reply =
    | Text(text: string)
    | Error(error: string)
    | Failure(error: string, details: string)

  datatype Response = Response(status: nat, reply: Reply)

  const NetworkErrorText := "Failed to fetch website content due to network error."
  const StatusErrorPrefix := "Could not fetch website content. Status: "
  const MaxTextLength: nat := 15000

  /** `response.ok`. */
  predicate Ok(status: nat)
  {
    200 <= status <= 299
  }

  // ---------------------------------------------------------------------
  // normalising the text

  /** `replace(/\s+/g, " ")`: every run of whitespace becomes one space. */
  function Collapse(s: string): (r: string)
    ensures |r| <= |s|
    ensures |s| > 0 ==> |r| > 0 && r[0] == (if IsSpace(s[0]) then ' ' else s[0])
    ensures forall i :: 0 <= i < |r| && IsSpace(r[i]) ==> r[i] == ' '
    ensures SingleSpaced(r)
    decreases |s|
  {
    if |s| == 0 then ""
    else if IsSpace(s[0]) then [' '] + Collapse(TrimStart(s[1..]))
    else [s[0]] + Collapse(s[1..])
  }

  /** A whitespace run, whether between two visible characters or at either
      end of the text, becomes exactly one space: the text on each side is
      collapsed on its own and the two are joined by a single `' '`. */
  lemma {:induction false} CollapseRun(a: string, w: string, b: string)
    requires |w| > 0 && forall i :: 0 <= i < |w| ==> IsSpace(w[i])
    requires a == [] || !IsSpace(a[|a| - 1])
    requires b == [] || !IsSpace(b[0])
    ensures Collapse(a + w + b) == Collapse(a) + [' '] + Collapse(b)
    decreases |a|
  {
    if |a| == 0 {
      assert a + w + b == w + b;
      CollapseLeadingRun(w, b);
    } else if !IsSpace(a[0]) {
      CollapseRun(a[1..], w, b);
      CollapseVisibleHead(a, w, b);
      PrependRegroups(a[0], Collapse(a[1..]), Collapse(b));
    } else {
      var rest := TrimStart(a[1..]);
      CollapseRun(rest, w, b);
      CollapseSpaceHead(a, w, b);
      PrependRegroups(' ', Collapse(rest), Collapse(b));
    }
  }

  lemma PrependRegroups(c: char, x: string, y: string)
    ensures [c] + (x + [' '] + y) == [c] + x + [' '] + y
  {
  }

  /** A text that starts with a whitespace run starts with one space. */
  lemma CollapseLeadingRun(w: string, b: string)
    requires |w| > 0 && forall i :: 0 <= i < |w| ==> IsSpace(w[i])
    requires b == [] || !IsSpace(b[0])
    ensures Collapse(w + b) == [' '] + Collapse(b)
  {
    assert (w + b)[0] == w[0] && (w + b)[1..] == w[1..] + b;
    TrimStartPastSpaces(w[1..], b);
  }

  /** A visible first character is kept and the rest is collapsed. */
  lemma CollapseVisibleHead(a: string, w: string, b: string)
    requires |a| > 0 && !IsSpace(a[0])
    ensures Collapse(a + w + b) == [a[0]] + Collapse(a[1..] + w + b)
  {
    assert (a + w + b)[0] == a[0] && (a + w + b)[1..] == a[1..] + w + b;
  }

  /** A leading whitespace run of a text that ends visibly becomes one space,
      whatever follows the text. */
  lemma CollapseSpaceHead(a: string, w: string, b: string)
    requires |a| > 0 && IsSpace(a[0]) && !IsSpace(a[|a| - 1])
    ensures Collapse(a + w + b) == [' '] + Collapse(TrimStart(a[1..]) + w + b)
  {
    assert (a + w + b)[0] == a[0] && (a + w + b)[1..] == a[1..] + (w + b);
    TrimStartConcat(a[1..], w + b);
    assert TrimStart(a[1..]) + (w + b) == TrimStart(a[1..]) + w + b;
  }

  /** Text without whitespace is left as it is. */
  lemma {:induction false} CollapseKeepsWord(s: string)
    requires forall i :: 0 <= i < |s| ==> !IsSpace(s[i])
    ensures Collapse(s) == s
    decreases |s|
  {
    if |s| > 0 {
      CollapseKeepsWord(s[1..]);
    }
  }

  /** No two whitespace characters in a row. */
  predicate SingleSpaced(s: string)
  {
    forall i :: 0 <= i < |s| - 1 ==> !(IsSpace(s[i]) && IsSpace(s[i + 1]))
  }

  /** `.trim().substring(0, 15000)` after the collapse. */
  function Normalize(s: string): string
  {
    var t := Trim(Collapse(s));
    t[..if |t| <= MaxTextLength then |t| else MaxTextLength]
  }

  /** The normalised text is at most 15000 characters long, does not start
      with whitespace, never has two whitespace characters in a row, and its
      only whitespace is the plain space. */
  lemma NormalizeShape(s: string)
    ensures var r := Normalize(s);
      && |r| <= MaxTextLength
      && (r == [] || !IsSpace(r[0]))
      && SingleSpaced(r)
      && (forall i :: 0 <= i < |r| && IsSpace(r[i]) ==> r[i] == ' ')
  {
    var c := Collapse(s);
    var t := Trim(c);
    var m := if |t| <= MaxTextLength then |t| else MaxTextLength;
    assert Normalize(s) == t[..m];
    TrimmedPrefixShape(c, m);
  }

  /** A prefix of the trimmed text keeps the spacing of the text it was cut
      from, and does not start with whitespace. */
  lemma TrimmedPrefixShape(c: string, m: nat)
    requires SingleSpaced(c) && forall i :: 0 <= i < |c| && IsSpace(c[i]) ==> c[i] == ' '
    requires m <= |Trim(c)|
    ensures var r := Trim(c)[..m];
      && (r == [] || !IsSpace(r[0]))
      && SingleSpaced(r)
      && (forall i :: 0 <= i < |r| && IsSpace(r[i]) ==> r[i] == ' ')
  {
    var t := Trim(c);
    var k := |c| - |TrimStart(c)|;
    assert t[..m] == c[k..k + m];
    PieceKeepsSpacing(c, k, k + m);
    if m > 0 {
      assert t[..m][0] == t[0];
    }
  }

  /** A piece of a single-spaced text whose only whitespace is the plain space
      has both properties too. */
  lemma PieceKeepsSpacing(c: string, lo: nat, hi: nat)
    requires lo <= hi <= |c|
    requires SingleSpaced(c) && forall i :: 0 <= i < |c| && IsSpace(c[i]) ==> c[i] == ' '
    ensures SingleSpaced(c[lo..hi])
    ensures forall i :: 0 <= i < hi - lo && IsSpace(c[lo..hi][i]) ==> c[lo..hi][i] == ' '
  {
    var p := c[lo..hi];
    forall i | 0 <= i < |p| - 1 ensures !(IsSpace(p[i]) && IsSpace(p[i + 1])) {
      assert p[i] == c[lo + i] && p[i + 1] == c[lo + i + 1];
    }
  }

  /** The cut is hard: a text of at most 15000 characters is kept whole, a
      longer one loses everything after its first 15000 characters, even if
      that leaves a space at the end. */
  lemma NormalizeCut(s: string)
    ensures var t := Trim(Collapse(s));
      && (|t| <= MaxTextLength ==> Normalize(s) == t)
      && (|t| > MaxTextLength ==> Normalize(s) == t[..MaxTextLength])
  {
  }

  /** The text with its whitespace removed: what normalising must preserve. */
  function Visible(s: string): (r: string)
    ensures forall i :: 0 <= i < |r| ==> !IsSpace(r[i])
    decreases |s|
  {
    if |s| == 0 then ""
    else if IsSpace(s[0]) then Visible(s[1..])
    else [s[0]] + Visible(s[1..])
  }

  lemma {:induction false} VisibleConcat(a: string, b: string)
    ensures Visible(a + b) == Visible(a) + Visible(b)
    decreases |a|
  {
    if |a| == 0 {
      assert a + b == b;
    } else {
      assert (a + b)[0] == a[0];
      assert (a + b)[1..] == a[1..] + b;
      VisibleConcat(a[1..], b);
    }
  }

  lemma {:induction false} VisibleOfSpaces(s: string)
    requires forall i :: 0 <= i < |s| ==> IsSpace(s[i])
    ensures Visible(s) == ""
    decreases |s|
  {
    if |s| > 0 {
      VisibleOfSpaces(s[1..]);
    }
  }

  /** Collapsing whitespace keeps every other character, in order. */
  lemma {:induction false} CollapseKeepsVisible(s: string)
    ensures Visible(Collapse(s)) == Visible(s)
    decreases |s|
  {
    if |s| > 0 {
      if IsSpace(s[0]) {
        var rest := TrimStart(s[1..]);
        CollapseKeepsVisible(rest);
        var dropped := s[1..][..|s[1..]| - |rest|];
        assert s[1..] == dropped + rest;
        VisibleOfSpaces(dropped);
        VisibleConcat(dropped, rest);
        assert ([' '] + Collapse(rest))[1..] == Collapse(rest);
      } else {
        CollapseKeepsVisible(s[1..]);
        assert ([s[0]] + Collapse(s[1..]))[1..] == Collapse(s[1..]);
      }
    }
  }

  /** Trimming drops only whitespace. */
  lemma TrimKeepsVisible(s: string)
    ensures Visible(Trim(s)) == Visible(s)
  {
    var t := Trim(s);
    var k := |s| - |TrimStart(s)|;
    assert s == s[..k] + t + s[k + |t|..];
    VisibleOfSpaces(s[..k]);
    VisibleOfSpaces(s[k + |t|..]);
    VisibleConcat(s[..k], t);
    VisibleConcat(s[..k] + t, s[k + |t|..]);
  }

  /** A page whose normalised text is not cut keeps all its non-whitespace
      characters, in order. */
  lemma NormalizeKeepsVisible(s: string)
    requires |Trim(Collapse(s))| <= MaxTextLength
    ensures Visible(Normalize(s)) == Visible(s)
  {
    var c := Collapse(s);
    var t := Trim(c);
    assert t[..|t|] == t;
    assert Normalize(s) == t;
    CollapseKeepsVisible(s);
    TrimKeepsVisible(c);
  }

  // ---------------------------------------------------------------------
  // the handler

  /** The route handler. An absent body makes reading `url` throw, which the
      outer handler turns into a 500 carrying the exception's message,
      `details`. */
  method HandleScrape(request: Request, fetch: FetchOutcome, details: string) returns (response: Response)
    ensures request.NoBody? <==> response.status == 500
    ensures request.NoBody? ==> response.reply == Failure("Failed to scrape website", details)
    ensures request.WithBody? && !Truthy(request.url) ==> response == Response(400, Error("URL is required"))
    ensures request.WithBody? && Truthy(request.url) ==> response.status == 200 && response.reply.Text?
    ensures request.WithBody? && Truthy(request.url) && fetch.Thrown? ==>
      response.reply.text == "Failed to fetch website content due to network error."
    ensures request.WithBody? && Truthy(request.url) && fetch.Responded? && !Ok(fetch.status) ==>
      response.reply.text == "Could not fetch website content. Status: " + Decimal(fetch.status)
    ensures request.WithBody? && Truthy(request.url) && fetch.Responded? && Ok(fetch.status) ==>
      response.reply.text == Normalize(fetch.bodyText)
  {
    if request.NoBody? {
      return Response(500, Failure("Failed to scrape website", details));
    }
    if !Truthy(request.url) {
      return Response(400, Error("URL is required"));
    }
    var textContent := "";
    if fetch.Thrown? {
      textContent := NetworkErrorText;
    } else if Ok(fetch.status) {
      textContent := Normalize(fetch.bodyText);
    } else {
      textContent := StatusErrorPrefix + Decimal(fetch.status);
    }
    response := Response(200, Text(textContent));
  }

  /** The status named in the message reads back to the response's status. */
  lemma StatusMessageNamesStatus(status: nat)
    ensures var m := StatusErrorPrefix + Decimal(status);
      && m[..|StatusErrorPrefix|] == StatusErrorPrefix
      && IsDigits(m[|StatusErrorPrefix|..])
      && ParseDecimal(m[|StatusErrorPrefix|..]) == status
  {
    var m := StatusErrorPrefix + Decimal(status);
    assert m[|StatusErrorPrefix|..] == Decimal(status);
    DecimalRoundTrip(status);
  }
}
