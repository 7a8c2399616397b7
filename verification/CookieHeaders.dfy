/**
 Cookie headers on their way to an app: several are merged into one (section 8.2.3 of RFC 9113) and the
 proxy's own gate cookie is taken out.
 */
module CookieHeaders {
  import opened Wrappers
  import opened Text
  import opened Sequences

  /** A header value; some are not readable text. */
  datatype Value = Readable(text: string) | Unreadable

  /** A piece of a header value: a cookie with or without a value. */
  datatype Piece = Piece(text: string)

  const SEPARATOR := "; "

  // ----- splitting and joining

  function Split(s: string, sep: char): (parts: seq<Piece>)
    ensures parts != []
  {
    if s == "" then [Piece("")]
    else
      var rest := Split(s[1..], sep);
      if s[0] == sep then [Piece("")] + rest else [Piece([s[0]] + rest[0].text)] + rest[1..]
  }

  function Join(parts: seq<Piece>): string {
    if parts == [] then ""
    else if |parts| == 1 then parts[0].text
    else parts[0].text + SEPARATOR + Join(parts[1..])
  }

  /** The parts trimmed, blank ones dropped. */
  function NonBlank(parts: seq<Piece>): seq<Piece> {
    FlatMap(Kept, parts)
  }

  function Kept(part: Piece): seq<Piece> {
    var text := Trim(part.text);
    if text == "" then [] else [Piece(text)]
  }

  /** The cookies of one header value, in order. */
  function Cookies(value: string): seq<Piece> {
    NonBlank(Split(value, ';'))
  }

  function HeaderCookies(header: Value): seq<Piece> {
    if header.Readable? then Cookies(header.text) else []
  }

  /** The cookies of all readable headers, in order. */
  function AllCookies(headers: seq<Value>): seq<Piece> {
    FlatMap(HeaderCookies, headers)
  }

  function CookieName(cookie: Piece): string {
    match SplitOnce(cookie.text, '=')
    case None => cookie.text
    case Some((name, _)) => name
  }

  function Without(cookies: seq<Piece>, name: string): seq<Piece> {
    if cookies == [] then []
    else (if CookieName(cookies[0]) == name then [] else [cookies[0]]) + Without(cookies[1..], name)
  }

  /** The value of the first cookie with this name; a cookie without `=` has none. */
  function FirstValue(cookies: seq<Piece>, name: string): Option<string> {
    if cookies == [] then None
    else if ValueFor(cookies[0], name).Some? then ValueFor(cookies[0], name)
    else FirstValue(cookies[1..], name)
  }

  function ValueFor(cookie: Piece, name: string): (value: Option<string>)
    ensures value.Some? ==> CookieName(cookie) == name
  {
    match SplitOnce(cookie.text, '=')
    case None => None
    case Some((key, value)) => if key == name then Some(value) else None
  }

  lemma EqualsSignIsThere(text: string, name: string, value: string)
    ensures name + "=" <= text || text == name + "=" + value ==> !Free(text, '=')
  {
    if name + "=" <= text || text == name + "=" + value {
      assert text[|name|] == (name + "=")[|name|] == '=';
    }
  }

  /** A cookie is its name, or its name, an equals sign and its value; the first equals sign counts. */
  lemma NameAndValueExactly(cookie: Piece, name: string, value: string)
    requires Free(name, '=')
    ensures CookieName(cookie) == name <==> cookie.text == name || name + "=" <= cookie.text
    ensures ValueFor(cookie, name) == Some(value) <==> cookie.text == name + "=" + value
  {
    match SplitOnce(cookie.text, '=')
    case None =>
      EqualsSignIsThere(cookie.text, name, value);
    case Some((key, rest)) =>
      if name + "=" <= cookie.text {
        assert cookie.text == name + "=" + cookie.text[|name| + 1..];
        FirstSeparator(key, rest, name, cookie.text[|name| + 1..], '=');
      }
      if cookie.text == name + "=" + value {
        FirstSeparator(key, rest, name, value, '=');
      }
      assert cookie.text[|key|] == '=';
      assert key == name ==> name + "=" <= cookie.text;
  }

  /** Taking out goes cookie by cookie and so keeps the order and number of the others. */
  lemma {:induction false} WithoutAppend(a: seq<Piece>, b: seq<Piece>, name: string)
    ensures Without(a + b, name) == Without(a, name) + Without(b, name)
  {
    if a == [] {
      assert a + b == b;
    } else {
      var rest, first := a[1..], if CookieName(a[0]) == name then [] else [a[0]];
      WithoutAppend(rest, b, name);
      HeadAndTail(a, b);
      Associative(first, Without(rest, name), Without(b, name));
    }
  }

  lemma WithoutOne(cookie: Piece, name: string)
    ensures Without([cookie], name) == if CookieName(cookie) == name then [] else [cookie]
  {
    assert Without([cookie][1..], name) == [];
  }

  /** The value of a name is that of its first cookie that has one. */
  lemma {:induction false} FirstValueExactly(cookies: seq<Piece>, name: string)
    ensures FirstValue(cookies, name).None? <==> forall c <- cookies :: ValueFor(c, name).None?
    ensures FirstValue(cookies, name).Some? ==> exists i ::
                && 0 <= i < |cookies| && FirstValue(cookies, name) == ValueFor(cookies[i], name)
                && forall j :: 0 <= j < i ==> ValueFor(cookies[j], name).None?
  {
    if cookies != [] {
      FirstValueExactly(cookies[1..], name);
      assert cookies == [cookies[0]] + cookies[1..];
      if ValueFor(cookies[0], name).None? && FirstValue(cookies, name).Some? {
        var i :| 0 <= i < |cookies| - 1 && FirstValue(cookies, name) == ValueFor(cookies[1..][i], name)
                 && forall j :: 0 <= j < i ==> ValueFor(cookies[1..][j], name).None?;
        assert cookies[i + 1] == cookies[1..][i];
        assert forall j :: 0 < j < i + 1 ==> cookies[j] == cookies[1..][j - 1];
      }
    }
  }

  function CookieValue(headers: seq<Value>, name: string): Option<string> {
    FirstValue(AllCookies(headers), name)
  }

  // ----- what the two operations leave

  function HeaderValue(header: Value): seq<Piece> {
    if header.Readable? then Kept(Piece(header.text)) else []
  }

  /** Readable header values, trimmed, blank ones dropped. */
  function Values(headers: seq<Value>): seq<Piece> {
    FlatMap(HeaderValue, headers)
  }

  function Merged(headers: seq<Value>): seq<Value> {
    if |Values(headers)| < 2 then headers else [Readable(Join(Values(headers)))]
  }

  function Stripped(headers: seq<Value>, name: string): seq<Value> {
    if headers == [] || headers[0].Unreadable? then headers
    else
      var kept := Without(Cookies(headers[0].text), name);
      if kept == [] then [] else [Readable(Join(kept))]
  }

  /** The cookie headers of a request, changed in place before the request goes upstream. */
  class RequestHeader {
    var cookies: seq<Value>

    constructor (cookies: seq<Value>)
      ensures this.cookies == cookies
    {
      this.cookies := cookies;
    }

    method MergeCookieHeaders()
      modifies this
      ensures cookies == Merged(old(cookies))
    {
      var values := Values(cookies);
      if |values| < 2 {
        return;
      }
      cookies := [Readable(Join(values))];
    }

    method StripCookie(name: string)
      modifies this
      ensures cookies == Stripped(old(cookies), name)
    {
      if cookies == [] || cookies[0].Unreadable? {
        return;
      }
      var kept := Without(Cookies(cookies[0].text), name);
      cookies := if kept == [] then [] else [Readable(Join(kept))];
    }

    /** The two edits every request to an app goes through. */
    method UpstreamRequestFilter(gate: string)
      modifies this
      ensures AllCookies(cookies) == Without(AllCookies(old(cookies)), gate) <==> GateIsTakenOut(old(cookies), gate)
      ensures |cookies| <= 1 <==> |old(cookies)| <= 1 || |Values(old(cookies))| >= 2 || old(cookies)[0].Readable?
    {
      FilterTakesGateOutExactly(cookies, gate);
      AtMostOneHeaderExactly(cookies, gate);
      MergeCookieHeaders();
      StripCookie(gate);
    }
  }

  // ----- proofs about one header value

  lemma {:induction false} SplitAppend(a: string, b: string, sep: char)
    ensures Split(a + [sep] + b, sep) == Split(a, sep) + Split(b, sep)
  {
    var s := a + [sep] + b;
    if a == "" {
      assert s[0] == sep && s[1..] == b;
    } else {
      assert s[1..] == a[1..] + [sep] + b && s[0] == a[0];
      SplitAppend(a[1..], b, sep);
    }
  }

  lemma {:induction false} SplitFree(s: string, sep: char)
    requires Free(s, sep)
    ensures Split(s, sep) == [Piece(s)]
  {
    if s != "" {
      SplitFree(s[1..], sep);
      assert [s[0]] + s[1..] == s;
    }
  }

  lemma SplitCons(c: char, s: string, sep: char)
    ensures
      var rest := Split(s, sep);
      Split([c] + s, sep) ==
      if c == sep then [Piece("")] + rest else [Piece([c] + rest[0].text)] + rest[1..]
  {
    assert ([c] + s)[0] == c && ([c] + s)[1..] == s;
  }

  function Longer(parts: seq<Piece>, c: char): seq<Piece>
    requires parts != []
  {
    parts[..|parts| - 1] + [Piece(parts[|parts| - 1].text + [c])]
  }

  lemma LongerAfter(first: Piece, rest: seq<Piece>, c: char)
    requires rest != []
    ensures Longer([first] + rest, c) == [first] + Longer(rest, c)
  {
  }

  lemma LongerFirst(d: char, rest: seq<Piece>, c: char)
    requires rest != []
    ensures Longer([Piece([d] + rest[0].text)] + rest[1..], c)
            == [Piece([d] + Longer(rest, c)[0].text)] + Longer(rest, c)[1..]
  {
    assert [d] + (rest[0].text + [c]) == [d] + rest[0].text + [c];
  }

  lemma {:induction false} SplitSnoc(s: string, c: char, sep: char)
    requires c != sep
    ensures Split(s + [c], sep) == Longer(Split(s, sep), c)
  {
    if s == "" {
      SplitCons(c, "", sep);
      assert "" + [c] == [c] + "";
    } else {
      var first, tail := s[0], s[1..];
      SplitSnoc(tail, c, sep);
      assert s == [first] + tail && s + [c] == [first] + (tail + [c]);
      SplitCons(first, tail, sep);
      SplitCons(first, tail + [c], sep);
      LongerAfter(Piece(""), Split(tail, sep), c);
      LongerFirst(first, Split(tail, sep), c);
    }
  }

  lemma TrimIgnoresLeadingSpace(s: string, c: char)
    requires IsSpace(c)
    ensures Trim([c] + s) == Trim(s)
  {
    var longer := [c] + s;
    var n := SkipSpace(s, 0);
    assert forall k :: 0 <= k < |s| ==> longer[k + 1] == s[k];
    assert SkipSpace(longer, 0) == n + 1 by {
      assert n < |s| ==> !IsSpace(longer[n + 1]);
      assert forall k :: 0 < k < n + 1 ==> longer[k] == s[k - 1];
    }
    assert longer[n + 1..] == s[n..];
  }

  lemma TrimStartSnoc(s: string, c: char)
    requires IsSpace(c)
    ensures TrimStart(s + [c]) == if TrimStart(s) == "" then "" else TrimStart(s) + [c]
  {
    var longer := s + [c];
    var n, m := SkipSpace(s, 0), SkipSpace(longer, 0);
    assert forall k :: 0 <= k < |s| ==> longer[k] == s[k];
    if n < |s| {
      assert m == n;
      assert longer[n..] == s[n..] + [c];
    } else {
      assert longer[|s|] == c;
      assert m == |longer|;
    }
  }

  lemma TrimEndSnoc(s: string, c: char)
    requires IsSpace(c)
    ensures TrimEnd(s + [c]) == TrimEnd(s)
  {
    var longer := s + [c];
    var n, m := SkipSpaceBack(s, |s|), SkipSpaceBack(longer, |longer|);
    assert forall k :: 0 <= k < |s| ==> longer[k] == s[k];
    assert longer[|s|] == c;
    assert m == n;
    assert longer[..n] == s[..n];
  }

  lemma TrimIgnoresTrailingSpace(s: string, c: char)
    requires IsSpace(c)
    ensures Trim(s + [c]) == Trim(s)
  {
    TrimStartSnoc(s, c);
    TrimEndSnoc(TrimStart(s), c);
  }

  lemma NonBlankOfFirst(p: Piece, q: Piece, rest: seq<Piece>)
    requires Kept(p) == Kept(q)
    ensures NonBlank([p] + rest) == NonBlank([q] + rest)
  {
    FlatMapAppend(Kept, [p], rest);
    FlatMapAppend(Kept, [q], rest);
    FlatMapOne(Kept, p);
    FlatMapOne(Kept, q);
  }

  lemma CookiesIgnoreLeadingSpace(s: string, c: char)
    requires IsSpace(c)
    ensures Cookies([c] + s) == Cookies(s)
  {
    var parts := Split(s, ';');
    var first := Piece([c] + parts[0].text);
    SplitCons(c, s, ';');
    TrimIgnoresLeadingSpace(parts[0].text, c);
    NonBlankOfFirst(first, parts[0], parts[1..]);
    assert [parts[0]] + parts[1..] == parts;
  }

  lemma CookiesIgnoreTrailingSpace(s: string, c: char)
    requires IsSpace(c)
    ensures Cookies(s + [c]) == Cookies(s)
  {
    SplitSnoc(s, c, ';');
    var parts := Split(s, ';');
    var init, last := parts[..|parts| - 1], parts[|parts| - 1];
    var longer := Piece(last.text + [c]);
    assert parts == init + [last];
    FlatMapAppend(Kept, init, [last]);
    FlatMapAppend(Kept, init, [longer]);
    TrimIgnoresTrailingSpace(last.text, c);
    FlatMapOne(Kept, last);
    FlatMapOne(Kept, longer);
  }

  /** White space at the outside of a text does not matter to `f`. */
  ghost predicate IgnoresOuterSpace<T(!new)>(f: string -> T) {
    && (forall c, t :: IsSpace(c) ==> f([c] + t) == f(t))
    && (forall c, t :: IsSpace(c) ==> f(t + [c]) == f(t))
  }

  lemma {:induction false} AfterLeadingSpace<T(!new)>(f: string -> T, s: string, k: nat)
    requires IgnoresOuterSpace(f)
    requires k <= |s| && forall j :: 0 <= j < k ==> IsSpace(s[j])
    ensures f(s[k..]) == f(s)
  {
    if k == 0 {
      assert s[0..] == s;
    } else {
      AfterLeadingSpace(f, s, k - 1);
      assert [s[k - 1]] + s[k..] == s[k - 1..];
    }
  }

  lemma {:induction false} BeforeTrailingSpace<T(!new)>(f: string -> T, s: string, k: nat)
    requires IgnoresOuterSpace(f)
    requires k <= |s| && forall j :: k <= j < |s| ==> IsSpace(s[j])
    ensures f(s[..k]) == f(s)
    decreases |s| - k
  {
    if k == |s| {
      assert s[..k] == s;
    } else {
      BeforeTrailingSpace(f, s, k + 1);
      assert s[..k] + [s[k]] == s[..k + 1];
    }
  }

  lemma TrimmedIsTheSame<T(!new)>(f: string -> T, s: string)
    requires IgnoresOuterSpace(f)
    ensures f(Trim(s)) == f(s)
  {
    var start := TrimStart(s);
    var end := TrimEnd(start);
    AfterLeadingSpace(f, s, |s| - |start|);
    BeforeTrailingSpace(f, start, |end|);
    assert s[|s| - |start|..] == start && start[..|end|] == end;
  }

  lemma NoCookies()
    ensures Cookies("") == []
  {
    FlatMapOne(Kept, Piece(""));
  }

  lemma CookiesIgnoreOuterSpace()
    ensures IgnoresOuterSpace(Cookies)
  {
    forall c, t | IsSpace(c) ensures Cookies([c] + t) == Cookies(t) {
      CookiesIgnoreLeadingSpace(t, c);
    }
    forall c, t | IsSpace(c) ensures Cookies(t + [c]) == Cookies(t) {
      CookiesIgnoreTrailingSpace(t, c);
    }
  }

  lemma CookiesOfTrim(s: string, trimmed: string)
    requires trimmed == Trim(s)
    ensures Cookies(trimmed) == Cookies(s)
  {
    CookiesIgnoreOuterSpace();
    TrimmedIsTheSame(Cookies, s);
  }

  lemma CookiesOfBlank(s: string)
    requires Trim(s) == ""
    ensures Cookies(s) == []
  {
    CookiesOfTrim(s, "");
    NoCookies();
  }

  lemma CookiesAppend(a: string, b: string)
    ensures Cookies(a + SEPARATOR + b) == Cookies(a) + Cookies(b)
  {
    assert a + SEPARATOR + b == a + [';'] + ([' '] + b);
    SplitAppend(a, [' '] + b, ';');
    FlatMapAppend(Kept, Split(a, ';'), Split([' '] + b, ';'));
    CookiesIgnoreLeadingSpace(b, ' ');
  }

  // ----- proofs about all headers

  function CookiesIn(value: Piece): seq<Piece> {
    Cookies(value.text)
  }

  /** Joining header values keeps all their cookies, in order. */
  lemma {:induction false} CookiesOfJoin(values: seq<Piece>)
    requires values != []
    ensures Cookies(Join(values)) == FlatMap(CookiesIn, values)
  {
    if |values| > 1 {
      CookiesOfJoin(values[1..]);
      CookiesAppend(values[0].text, Join(values[1..]));
    } else {
      assert values == [values[0]];
      FlatMapOne(CookiesIn, values[0]);
    }
  }

  lemma CookiesOfValue(header: Value)
    ensures FlatMap(CookiesIn, HeaderValue(header)) == HeaderCookies(header)
  {
    if header.Readable? {
      var trimmed := Trim(header.text);
      if trimmed == "" {
        CookiesOfBlank(header.text);
      } else {
        CookiesOfTrim(header.text, trimmed);
        FlatMapOne(CookiesIn, Piece(trimmed));
      }
    }
  }

  lemma AllCookiesAreOfValues(headers: seq<Value>)
    ensures AllCookies(headers) == FlatMap(CookiesIn, Values(headers))
  {
    forall h <- headers ensures FlatMap(CookiesIn, HeaderValue(h)) == HeaderCookies(h) {
      CookiesOfValue(h);
    }
    FlatMapTwice(HeaderValue, CookiesIn, HeaderCookies, headers);
  }

  lemma SingleHeader(text: string)
    ensures AllCookies([Readable(text)]) == Cookies(text)
  {
    FlatMapOne(HeaderCookies, Readable(text));
  }

  /** Merging loses no cookie and keeps their order, whatever the headers hold. */
  lemma MergeKeepsCookies(headers: seq<Value>)
    ensures AllCookies(Merged(headers)) == AllCookies(headers)
  {
    if |Values(headers)| >= 2 {
      AllCookiesAreOfValues(headers);
      CookiesOfJoin(Values(headers));
      SingleHeader(Join(Values(headers)));
    }
  }

  ghost predicate IsCookie(c: Piece) {
    Cookies(c.text) == [c]
  }

  lemma FreeOfTrim(s: string, trimmed: string, sep: char)
    requires Free(s, sep) && trimmed == Trim(s)
    ensures Free(trimmed, sep)
  {
    var start := TrimStart(s);
    assert start == s[|s| - |start|..] && trimmed <= start;
  }

  lemma TrimmedPartIsCookie(part: Piece, trimmed: string)
    requires Free(part.text, ';') && trimmed == Trim(part.text) && trimmed != ""
    ensures IsCookie(Piece(trimmed))
  {
    FreeOfTrim(part.text, trimmed, ';');
    SplitFree(trimmed, ';');
    TrimKeepsExactly(trimmed);
    FlatMapOne(Kept, Piece(trimmed));
  }

  lemma {:induction false} PartsAreFree(s: string, sep: char)
    ensures forall p <- Split(s, sep) :: Free(p.text, sep)
  {
    if s != "" {
      var rest := Split(s[1..], sep);
      PartsAreFree(s[1..], sep);
      assert Free(rest[0].text, sep);
      if s[0] != sep {
        assert Free([s[0]] + rest[0].text, sep);
      }
    }
  }

  lemma PartsAreCookies(value: string)
    ensures forall c <- Cookies(value) :: IsCookie(c)
  {
    var parts := Split(value, ';');
    PartsAreFree(value, ';');
    forall p <- parts ensures forall c <- Kept(p) :: IsCookie(c) {
      if Trim(p.text) != "" {
        TrimmedPartIsCookie(p, Trim(p.text));
      }
    }
    FlatMapAll(Kept, parts, c => IsCookie(c));
  }

  lemma {:induction false} WithoutExactly(cookies: seq<Piece>, name: string)
    ensures Without(cookies, name) == cookies <==> forall c <- cookies :: CookieName(c) != name
    ensures Without(cookies, name) == [] <==> forall c <- cookies :: CookieName(c) == name
    ensures |Without(cookies, name)| <= |cookies| && forall c <- Without(cookies, name) :: c in cookies
  {
    if cookies != [] {
      WithoutExactly(cookies[1..], name);
      assert cookies == [cookies[0]] + cookies[1..];
    }
  }

  /** Stripping a readable first header leaves exactly its other cookies. */
  lemma StripTakesOut(headers: seq<Value>, name: string)
    requires headers != [] && headers[0].Readable?
    ensures AllCookies(Stripped(headers, name)) == Without(Cookies(headers[0].text), name)
  {
    var cookies := Cookies(headers[0].text);
    PartsAreCookies(headers[0].text);
    WithoutExactly(cookies, name);
    var kept := Without(cookies, name);
    if kept != [] {
      forall c <- kept ensures CookiesIn(c) == [c] {
        assert IsCookie(c);
      }
      FlatMapKeeps(CookiesIn, kept);
      CookiesOfJoin(kept);
      SingleHeader(Join(kept));
    }
  }

  /** When the gate cookie, and nothing else, is taken out. */
  ghost predicate GateIsTakenOut(headers: seq<Value>, gate: string) {
    || headers == []
    || |Values(headers)| >= 2
    || (headers[0].Readable? && Trim(headers[0].text) != "")
    || (headers[0].Unreadable? && forall c <- AllCookies(headers) :: CookieName(c) != gate)
    || (headers[0].Readable? && forall c <- AllCookies(headers) :: CookieName(c) == gate)
  }

  lemma OnlyValueIsFirst(headers: seq<Value>)
    requires headers != [] && |Values(headers)| < 2 && headers[0].Readable?
    ensures Trim(headers[0].text) != "" ==> AllCookies(headers) == Cookies(headers[0].text)
    ensures Trim(headers[0].text) == "" ==> Cookies(headers[0].text) == []
  {
    var value, rest := HeaderValue(headers[0]), Values(headers[1..]);
    if value == [] {
      CookiesOfBlank(headers[0].text);
    } else {
      assert Values(headers) == value + rest;
      assert Values(headers) == value;
      AllCookiesAreOfValues(headers);
      CookiesOfValue(headers[0]);
    }
  }

  /** The filter as a whole, for every list of headers. */
  lemma FilterTakesGateOutExactly(headers: seq<Value>, gate: string)
    ensures AllCookies(Stripped(Merged(headers), gate)) == Without(AllCookies(headers), gate)
            <==> GateIsTakenOut(headers, gate)
  {
    var merged := Merged(headers);
    MergeKeepsCookies(headers);
    WithoutExactly(AllCookies(headers), gate);
    if merged != [] && merged[0].Readable? {
      StripTakesOut(merged, gate);
      if |Values(headers)| >= 2 {
        SingleHeader(merged[0].text);
      } else {
        OnlyValueIsFirst(headers);
      }
    }
  }

  lemma AtMostOneHeaderExactly(headers: seq<Value>, gate: string)
    ensures |Stripped(Merged(headers), gate)| <= 1
            <==> |headers| <= 1 || |Values(headers)| >= 2 || headers[0].Readable?
  {
  }

  lemma {:induction false} FirstValueWithout(cookies: seq<Piece>, gate: string, name: string)
    ensures FirstValue(Without(cookies, gate), gate) == None
    ensures name != gate ==> FirstValue(Without(cookies, gate), name) == FirstValue(cookies, name)
  {
    if cookies != [] {
      FirstValueWithout(cookies[1..], gate, name);
      var rest := Without(cookies[1..], gate);
      assert ([cookies[0]] + rest)[1..] == rest && [] + rest == rest;
    }
  }

  /** For readable, non-blank headers: one header at most, no gate cookie, every other value as before. */
  lemma OrdinaryRequestsAreFiltered(headers: seq<Value>, gate: string, name: string)
    requires forall h <- headers :: h.Readable? && Trim(h.text) != ""
    ensures |Stripped(Merged(headers), gate)| <= 1 && CookieValue(Stripped(Merged(headers), gate), gate) == None
    ensures name != gate ==> CookieValue(Stripped(Merged(headers), gate), name) == CookieValue(headers, name)
  {
    FilterTakesGateOutExactly(headers, gate);
    AtMostOneHeaderExactly(headers, gate);
    FirstValueWithout(AllCookies(headers), gate, name);
  }

  lemma PlainTextIsCookie(text: string)
    requires text != "" && !IsSpace(text[0]) && !IsSpace(text[|text| - 1]) && Free(text, ';')
    ensures IsCookie(Piece(text))
  {
    SplitFree(text, ';');
    TrimKeepsExactly(text);
    FlatMapOne(Kept, Piece(text));
  }

  lemma OnlyCookieBehind(front: Value, cookie: Piece)
    requires IsCookie(cookie) && HeaderValue(front) == [] && HeaderCookies(front) == []
    ensures AllCookies([front, Readable(cookie.text)]) == [cookie]
    ensures |Values([front, Readable(cookie.text)])| < 2
  {
    var readable := Readable(cookie.text);
    assert [front, readable] == [front] + [readable];
    FlatMapAppend(HeaderValue, [front], [readable]);
    FlatMapAppend(HeaderCookies, [front], [readable]);
    FlatMapOne(HeaderValue, front);
    FlatMapOne(HeaderValue, readable);
    FlatMapOne(HeaderCookies, front);
    FlatMapOne(HeaderCookies, readable);
  }

  /** A gate cookie behind an unreadable header is passed on. */
  lemma UnreadableHeaderKeepsGate()
    ensures
      var headers := [Unreadable, Readable("s=1")];
      Stripped(Merged(headers), "s") == headers && AllCookies(headers) == [Piece("s=1")]
    ensures CookieName(Piece("s=1")) == "s"
  {
    PlainTextIsCookie("s=1");
    OnlyCookieBehind(Unreadable, Piece("s=1"));
    var parts := SplitOnce("s=1", '=').value;
    assert "s=1" == "s" + ['='] + "1";
    FirstSeparator("s", "1", parts.0, parts.1, '=');
  }

  /** The app's only cookie is lost behind a blank header. */
  lemma BlankHeaderLosesCookies(gate: string)
    ensures
      var headers := [Readable(""), Readable("a=1")];
      Stripped(Merged(headers), gate) == [] && AllCookies(headers) == [Piece("a=1")]
  {
    PlainTextIsCookie("a=1");
    NoCookies();
    OnlyCookieBehind(Readable(""), Piece("a=1"));
  }
}
