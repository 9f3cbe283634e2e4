/** The cache payload: `json.dumps([d.isoformat() for d in dates])` and the
    `json.loads` that reads it back. The syntax is that of sections 5 (arrays)
    and 7 (strings) of RFC 8259, with insignificant whitespace as in section 2.
    The encoder writes Python's default separator ", " between elements. */
module JsonDates {
  import opened Common
  import opened PyText
  import opened Calendar

  /** A character `json.dumps` writes as itself inside a string (printable ASCII,
      neither quote nor backslash). */
  predicate PlainChar(c: char)
  {
    ' ' <= c <= '~' && c != '"' && c != '\\'
  }

  predicate Plain(s: string)
  {
    forall i :: 0 <= i < |s| ==> PlainChar(s[i])
  }

  predicate AllPlain(xs: seq<string>)
  {
    forall k :: 0 <= k < |xs| ==> Plain(xs[k])
  }

  function Quote(x: string): string
  {
    "\"" + x + "\""
  }

  /** The elements after the first, each preceded by ", ". */
  function MoreItems(xs: seq<string>): string
  {
    if xs == [] then "" else ", " + Quote(xs[0]) + MoreItems(xs[1..])
  }

  /** `json.dumps(xs)` for a list of strings needing no escapes. */
  function EncodeStrings(xs: seq<string>): (s: string)
    requires AllPlain(xs)
    ensures |s| >= 2 && s[0] == '[' && s[|s| - 1] == ']'
  {
    if xs == [] then "[]" else "[" + Quote(xs[0]) + MoreItems(xs[1..]) + "]"
  }

  // ---------------------------------------------------------------------------
  // Decoding

  /** JSON insignificant whitespace. */
  predicate IsWs(c: char)
  {
    c == ' ' || c == '\t' || c == '\n' || c == '\r'
  }

  function SkipWs(s: string): (r: string)
    ensures |r| <= |s|
    ensures r == [] || !IsWs(r[0])
  {
    if s != [] && IsWs(s[0]) then SkipWs(s[1..]) else s
  }

  /** The characters of a string literal up to its closing quote, and what follows it. */
  function ReadBody(s: string): (r: Option<(string, string)>)
    ensures r.Some? ==> |r.value.1| < |s|
  {
    if s == [] then None
    else if s[0] == '"' then Some(([], s[1..]))
    else if s[0] == '\\' || s[0] < ' ' then None
    else match ReadBody(s[1..])
      case None => None
      case Some((body, rest)) => Some(([s[0]] + body, rest))
  }

  /** A string literal at the front of `s`. */
  function ReadString(s: string): (r: Option<(string, string)>)
    ensures r.Some? ==> |r.value.1| < |s|
  {
    if s == [] || s[0] != '"' then None else ReadBody(s[1..])
  }

  /** After an element: either the closing ']' or ',' and one more element. */
  function ReadMore(s: string): Option<(seq<string>, string)>
    decreases |s|
  {
    var t := SkipWs(s);
    if t == [] then None
    else if t[0] == ']' then Some(([], t[1..]))
    else if t[0] != ',' then None
    else match ReadString(SkipWs(t[1..]))
      case None => None
      case Some((x, rest)) =>
        match ReadMore(rest)
        case None => None
        case Some((xs, rest')) => Some(([x] + xs, rest'))
  }

  /** `json.loads(s)` when `s` is an array of strings without escape sequences;
      `None` for every other text. */
  function DecodeStrings(s: string): (r: Option<seq<string>>)
    ensures r.Some? ==> SkipWs(s) != [] && SkipWs(s)[0] == '['
  {
    var t := SkipWs(s);
    if t == [] || t[0] != '[' then None
    else
      var u := SkipWs(t[1..]);
      if u != [] && u[0] == ']' then
        if SkipWs(u[1..]) == [] then Some([]) else None
      else match ReadString(u)
        case None => None
        case Some((x, rest)) =>
          match ReadMore(rest)
          case None => None
          case Some((xs, rest')) => if SkipWs(rest') == [] then Some([x] + xs) else None
  }

  lemma {:induction false} ReadBodyOf(x: string, rest: string)
    requires Plain(x)
    ensures ReadBody(x + "\"" + rest) == Some((x, rest))
  {
    var s := x + "\"" + rest;
    if x == [] {
      assert s[1..] == rest;
    } else {
      assert s[1..] == x[1..] + "\"" + rest;
      assert PlainChar(x[0]);
      ReadBodyOf(x[1..], rest);
      assert [x[0]] + x[1..] == x;
    }
  }

  lemma ReadStringOf(x: string, rest: string)
    requires Plain(x)
    ensures ReadString(Quote(x) + rest) == Some((x, rest))
  {
    assert (Quote(x) + rest)[1..] == x + "\"" + rest;
    ReadBodyOf(x, rest);
  }

  lemma {:induction false} ReadMoreOf(xs: seq<string>, rest: string)
    requires AllPlain(xs)
    ensures ReadMore(MoreItems(xs) + "]" + rest) == Some((xs, rest))
  {
    var s := MoreItems(xs) + "]" + rest;
    if xs == [] {
      assert s == "]" + rest;
      assert s[1..] == rest;
    } else {
      var tail := MoreItems(xs[1..]) + "]" + rest;
      assert s == ", " + (Quote(xs[0]) + tail);
      assert SkipWs(s) == s;
      assert s[1..] == " " + (Quote(xs[0]) + tail);
      assert SkipWs(s[1..]) == SkipWs(Quote(xs[0]) + tail);
      assert (Quote(xs[0]) + tail)[0] == '"';
      assert Plain(xs[0]);
      ReadStringOf(xs[0], tail);
      ReadMoreOf(xs[1..], rest);
      assert [xs[0]] + xs[1..] == xs;
    }
  }

  /** `json.loads(json.dumps(xs)) == xs`. */
  lemma StringsRoundTrip(xs: seq<string>)
    requires AllPlain(xs)
    ensures DecodeStrings(EncodeStrings(xs)) == Some(xs)
  {
    var s := EncodeStrings(xs);
    assert SkipWs(s) == s;
    if xs == [] {
      assert s[1..] == "]";
      assert s[1..][1..] == [];
    } else {
      var tail := MoreItems(xs[1..]) + "]";
      assert s[1..] == Quote(xs[0]) + tail;
      assert SkipWs(s[1..]) == s[1..];
      assert Plain(xs[0]);
      ReadStringOf(xs[0], tail);
      assert tail == MoreItems(xs[1..]) + "]" + [];
      ReadMoreOf(xs[1..], []);
      assert [xs[0]] + xs[1..] == xs;
    }
  }

  // ---------------------------------------------------------------------------
  // Lists of dates

  /** `[d.isoformat() for d in dates]`. */
  function IsoAll(dates: seq<Date>): (xs: seq<string>)
    ensures |xs| == |dates|
    ensures AllPlain(xs)
  {
    if dates == [] then []
    else
      IsoPlain(dates[0]);
      [IsoFormat(dates[0])] + IsoAll(dates[1..])
  }

  lemma IsoPlain(d: Date)
    ensures Plain(IsoFormat(d))
  {
    var s := IsoFormat(d);
    forall i | 0 <= i < |s| ensures PlainChar(s[i]) {
      if i < 4 {
        assert s[i] == Padded(d.year, 4)[i];
      } else if 4 < i < 7 {
        assert s[i] == Padded(d.month, 2)[i - 5];
      } else if 7 < i {
        assert s[i] == Padded(d.day, 2)[i - 8];
      }
    }
  }

  /** `[date.fromisoformat(x) for x in xs]`; the first failure aborts. */
  function FromIsoAll(xs: seq<string>): (r: Result<seq<Date>>)
    ensures r.Ok? ==> |r.value| == |xs|
  {
    if xs == [] then Ok([])
    else match FromIsoFormat(xs[0])
      case Err(e) => Err(e)
      case Ok(d) =>
        match FromIsoAll(xs[1..])
        case Err(e) => Err(e)
        case Ok(ds) => Ok([d] + ds)
  }

  /** The payload the orchestrator caches for a list of dates. */
  function DumpDates(dates: seq<Date>): (s: string)
    ensures s != []
  {
    EncodeStrings(IsoAll(dates))
  }

  lemma {:induction false} FromIsoAllOf(dates: seq<Date>)
    ensures FromIsoAll(IsoAll(dates)) == Ok(dates)
  {
    if dates != [] {
      IsoRoundTrip(dates[0]);
      assert IsoAll(dates)[1..] == IsoAll(dates[1..]);
      FromIsoAllOf(dates[1..]);
      assert [dates[0]] + dates[1..] == dates;
    }
  }

  /** Reading back a cached payload gives the ISO strings that were written, and
      parsing those gives the original dates. */
  lemma DatesRoundTrip(dates: seq<Date>)
    ensures DecodeStrings(DumpDates(dates)) == Some(IsoAll(dates))
    ensures FromIsoAll(IsoAll(dates)) == Ok(dates)
  {
    StringsRoundTrip(IsoAll(dates));
    FromIsoAllOf(dates);
  }
}
