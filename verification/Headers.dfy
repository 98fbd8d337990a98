/** Header lists: what submit_response and submit_request assemble, what on_header_callback captures on
    the other side, and the decimal lengths that travel in between. */
module Headers {
  import opened Bytes
  import StatusSide

  type Header = (string, string)

  const SIZE_LIMIT: nat := 0x1_0000_0000_0000_0000
  const UINT_LIMIT: nat := 0x1_0000_0000

  // ------------------------------------------------------------------------------ decimal numbers

  predicate IsDigit(c: char) {
    '0' <= c <= '9'
  }

  predicate AllDigits(s: string) {
    forall i :: 0 <= i < |s| ==> IsDigit(s[i])
  }

  function DigitValue(c: char): nat {
    if IsDigit(c) then c as int - '0' as int else 0
  }

  function Value(s: string): nat {
    if s == "" then 0 else 10 * Value(s[..|s| - 1]) + DigitValue(s[|s| - 1])
  }

  function DigitChar(d: nat): (c: char)
    requires d < 10
    ensures IsDigit(c) && DigitValue(c) == d
  {
    "0123456789"[d]
  }

  /** std::to_string of an unsigned number: its decimal numeral, without a leading zero. */
  function ToString(n: nat): (s: string)
    ensures s != "" && AllDigits(s)
    ensures if n == 0 then s == "0" else s[0] != '0'
  {
    if n < 10 then [DigitChar(n)] else ToString(n / 10) + [DigitChar(n % 10)]
  }

  lemma ValueSnoc(s: string, c: char)
    ensures Value(s + [c]) == 10 * Value(s) + DigitValue(c)
  {
    assert (s + [c])[..|s|] == s;
  }

  /** Writing a number and reading it back gives the number. */
  lemma {:induction false} ToStringValue(n: nat)
    ensures Value(ToString(n)) == n
  {
    if n < 10 {
      ValueSnoc("", DigitChar(n));
      assert "" + [DigitChar(n)] == [DigitChar(n)];
    } else {
      ToStringValue(n / 10);
      ValueSnoc(ToString(n / 10), DigitChar(n % 10));
    }
  }

  /** No leading zero, except in "0" itself. */
  predicate Canonical(s: string) {
    s != "" && AllDigits(s) && (s[0] == '0' ==> s == "0")
  }

  lemma {:induction false} PositiveValue(s: string)
    requires s != "" && IsDigit(s[0]) && s[0] != '0'
    ensures Value(s) > 0
  {
    if |s| > 1 {
      PositiveValue(s[..|s| - 1]);
    } else {
      assert s[..0] == "";
    }
  }

  lemma ToStringSnoc(a: nat, c: char)
    requires IsDigit(c)
    ensures a > 0 ==> ToString(10 * a + DigitValue(c)) == ToString(a) + [c]
    ensures ToString(DigitValue(c)) == [c]
  {
    assert DigitChar(DigitValue(c)) == c;
    var n := 10 * a + DigitValue(c);
    assert n / 10 == a && n % 10 == DigitValue(c);
  }

  /** There is no other canonical numeral for a number than the one that is written. */
  lemma {:induction false} NumeralIsUnique(s: string)
    requires Canonical(s)
    ensures s == ToString(Value(s))
    decreases |s|
  {
    hide ToString, Value;
    var init, last := s[..|s| - 1], s[|s| - 1];
    assert s == init + [last];
    ValueSnoc(init, last);
    ToStringSnoc(Value(init), last);
    if init == "" {
      NoValue();
    } else {
      assert init[0] == s[0] != '0' && AllDigits(init);
      PositiveValue(init);
      NumeralIsUnique(init);
    }
  }

  lemma NoValue()
    ensures Value("") == 0
  {}

  datatype Errc = Ok | InvalidArgument | OutOfRange

  /** std::from_chars of an unsigned type below `limit`: the longest front part made of digits, an error
      if there is none or if it does not fit, and where the digits end. */
  method FromChars(s: string, limit: nat) returns (value: nat, ec: Errc, end: nat)
    requires limit > 0
    ensures end <= |s| && AllDigits(s[..end]) && (end < |s| ==> !IsDigit(s[end]))
    ensures ec == if end == 0 then InvalidArgument else if Value(s[..end]) < limit then Ok else OutOfRange
    ensures ec.Ok? ==> value == Value(s[..end])
  {
    value, end := 0, 0;
    var fits := true;
    while end < |s| && IsDigit(s[end])
      invariant end <= |s| && AllDigits(s[..end])
      invariant fits <==> Value(s[..end]) < limit
      invariant fits ==> value == Value(s[..end])
    {
      ValueSnoc(s[..end], s[end]);
      assert s[..end] + [s[end]] == s[..end + 1];
      if fits {
        value := 10 * value + DigitValue(s[end]);
        fits := value < limit;
      }
      end := end + 1;
    }
    ec := if end == 0 then InvalidArgument else if fits then Ok else OutOfRange;
  }

  /** The lengths content-length accepts: non-empty, digits only, and within size_t. */
  function ParseLength(s: string): Option<nat> {
    if s != "" && AllDigits(s) && Value(s) < SIZE_LIMIT then Some(Value(s)) else None
  }

  lemma DigitsEndOnce(s: string, end: nat)
    requires end <= |s| && AllDigits(s[..end]) && (end < |s| ==> !IsDigit(s[end]))
    ensures end == |s| <==> AllDigits(s)
  {
    if end == |s| {
      assert s[..end] == s;
    }
  }

  /** on_header_callback's test: no error, and the digits end where the value ends. */
  method ReadContentLength(value: string) returns (length: Option<nat>)
    ensures length == ParseLength(value)
    ensures length.Some? <==> value != "" && AllDigits(value) && Value(value) < SIZE_LIMIT
    ensures length.Some? ==> length.value == Value(value)
  {
    var n, ec, end := FromChars(value, SIZE_LIMIT);
    DigitsEndOnce(value, end);
    if ec.Ok? && end == |value| {
      assert value[..end] == value;
      return Some(n);
    }
    if end == |value| {
      assert value[..end] == value;
    }
    return None;
  }

  /** Every size_t survives the trip. */
  lemma LengthRoundTrip(n: nat)
    requires n < SIZE_LIMIT
    ensures ParseLength(ToString(n)) == Some(n)
  {
    ToStringValue(n);
  }

  // --------------------------------------------------------------------------------- capturing

  predicate IsPseudo(name: string) {
    name != "" && name[0] == ':'
  }

  /** What a stream keeps of the headers that arrived. */
  datatype Captured = Captured(path: string, status: Option<nat>, length: Option<nat>, headers: seq<Header>)

  const NOTHING := Captured("", None, None, [])

  function DigitPrefix(s: string): string {
    if s == "" || !IsDigit(s[0]) then "" else [s[0]] + DigitPrefix(s[1..])
  }

  /** :status is taken from its leading digits; a value without any, or too large, counts as 0. */
  function ParseStatus(value: string): nat {
    var digits := DigitPrefix(value);
    if Value(digits) < UINT_LIMIT then Value(digits) else 0
  }

  lemma {:induction false} DigitPrefixEnds(s: string, end: nat)
    requires end <= |s| && AllDigits(s[..end]) && (end < |s| ==> !IsDigit(s[end]))
    ensures DigitPrefix(s) == s[..end]
    decreases |s|
  {
    if end > 0 {
      assert s[..end][0] == s[0];
      assert s[1..][..end - 1] == s[..end][1..];
      DigitPrefixEnds(s[1..], end - 1);
      assert s[..end] == [s[0]] + s[1..][..end - 1];
    }
  }

  /** The :status case ignores from_chars' verdict and keeps the initial 0 on an error. */
  method ReadStatus(value: string) returns (status: nat)
    ensures status == ParseStatus(value)
    ensures var number := Value(DigitPrefix(value)); status == if number < UINT_LIMIT then number else 0
  {
    var n, ec, end := FromChars(value, UINT_LIMIT);
    DigitPrefixEnds(value, end);
    status := if ec.Ok? then n else 0;
  }

  /** on_header_callback, for a stream that is found. */
  function OnHeader(c: Captured, h: Header): Captured {
    var (name, value) := h;
    if name == ":path" then c.(path := value)
    else if name == ":status" then c.(status := StatusSide.AsStatus(ParseStatus(value)))
    else if IsPseudo(name) then c
    else
      c.(length := if name == "content-length" && ParseLength(value).Some? then ParseLength(value) else c.length,
         headers := c.headers + [h])
  }

  function Capture(c: Captured, hs: seq<Header>): Captured
    decreases |hs|
  {
    if hs == [] then c else Capture(OnHeader(c, hs[0]), hs[1..])
  }

  predicate Plain(hs: seq<Header>) {
    forall i :: 0 <= i < |hs| ==> !IsPseudo(hs[i].0)
  }

  /** The length announced by the last well-formed content-length among `hs`. */
  function LastLength(hs: seq<Header>): Option<nat> {
    if hs == [] then None
    else
      var (name, value) := hs[|hs| - 1];
      if name == "content-length" && ParseLength(value).Some? then ParseLength(value)
      else LastLength(hs[..|hs| - 1])
  }

  lemma {:induction false} CaptureSnoc(c: Captured, hs: seq<Header>, h: Header)
    ensures Capture(c, hs + [h]) == OnHeader(Capture(c, hs), h)
    decreases |hs|
  {
    if hs == [] {
      assert ([] + [h])[1..] == [];
      assert hs + [h] == [h];
    } else {
      assert (hs + [h])[1..] == hs[1..] + [h];
      CaptureSnoc(OnHeader(c, hs[0]), hs[1..], h);
    }
  }

  lemma {:induction false} CaptureConcat(c: Captured, a: seq<Header>, b: seq<Header>)
    ensures Capture(c, a + b) == Capture(Capture(c, a), b)
    decreases |a|
  {
    if a == [] {
      assert a + b == b;
    } else {
      assert (a + b)[1..] == a[1..] + b;
      CaptureConcat(OnHeader(c, a[0]), a[1..], b);
    }
  }

  /** Plain headers are captured one for one: same order, duplicates and all; the announced length is
      that of the last well-formed content-length, if there is one. */
  lemma {:induction false} PlainCapture(c: Captured, hs: seq<Header>)
    requires Plain(hs)
    ensures Capture(c, hs) ==
            c.(headers := c.headers + hs, length := if LastLength(hs).Some? then LastLength(hs) else c.length)
    decreases |hs|
  {
    if hs == [] {
      assert c.headers + hs == c.headers;
    } else {
      var init, h := hs[..|hs| - 1], hs[|hs| - 1];
      assert hs == init + [h];
      CaptureSnoc(c, init, h);
      PlainCapture(c, init);
      assert !IsPseudo(h.0);
      assert (c.headers + init) + [h] == c.headers + hs;
    }
  }

  // -------------------------------------------------------------------------------- assembling

  function WithLength(length: Option<nat>): seq<Header> {
    if length.Some? then [("content-length", ToString(length.value))] else []
  }

  /** Response::submit followed by submit_response. */
  method AssembleResponse(status: nat, headers: seq<Header>, length: Option<nat>) returns (nva: seq<Header>)
    ensures nva == [(":status", ToString(status))] + (headers + WithLength(length))
  {
    var all := headers;
    if length.Some? {
      all := all + [("content-length", ToString(length.value))];
    }
    nva := [(":status", ToString(status))];
    for i := 0 to |all|
      invariant nva == [(":status", ToString(status))] + all[..i]
    {
      nva := nva + [all[i]];
    }
    assert all[..|all|] == all;
  }

  function RequestFront(path: string): seq<Header> {
    [(":method", "POST"), (":scheme", "http"), (":path", path), (":authority", "localhost")]
  }

  /** submit_request. */
  method AssembleRequest(path: string, headers: seq<Header>, length: Option<nat>) returns (nva: seq<Header>)
    ensures nva == RequestFront(path) + (WithLength(length) + headers)
    ensures nva[..4] == [(":method", "POST"), (":scheme", "http"), (":path", path), (":authority", "localhost")]
    ensures length.Some? ==> nva[4] == ("content-length", ToString(length.value))
  {
    nva := RequestFront(path);
    if length.Some? {
      nva := nva + [("content-length", ToString(length.value))];
    }
    ghost var front := nva;
    for i := 0 to |headers|
      invariant nva == front + headers[..i]
    {
      nva := nva + [headers[i]];
    }
    assert headers[..|headers|] == headers;
    assert nva == RequestFront(path) + (WithLength(length) + headers);
  }

  lemma {:induction false} DigitPrefixWhole(s: string)
    requires AllDigits(s)
    ensures DigitPrefix(s) == s
  {
    if s != "" {
      DigitPrefixWhole(s[1..]);
    }
  }

  lemma LastLengthAppend(hs: seq<Header>, n: nat)
    requires n < SIZE_LIMIT
    ensures LastLength(hs + WithLength(Some(n))) == Some(n)
  {
    LengthRoundTrip(n);
    var all := hs + WithLength(Some(n));
    assert all[|all| - 1] == ("content-length", ToString(n));
  }

  lemma {:induction false} LastLengthPrepend(n: nat, hs: seq<Header>)
    requires n < SIZE_LIMIT
    ensures LastLength(WithLength(Some(n)) + hs) == if LastLength(hs).Some? then LastLength(hs) else Some(n)
    decreases |hs|
  {
    var all := WithLength(Some(n)) + hs;
    if hs == [] {
      LengthRoundTrip(n);
      assert all == [("content-length", ToString(n))];
    } else {
      assert all[|all| - 1] == hs[|hs| - 1] && all[..|all| - 1] == WithLength(Some(n)) + hs[..|hs| - 1];
      LastLengthPrepend(n, hs[..|hs| - 1]);
    }
  }

  /** A response arrives as it was submitted: the status, if it fits an int, every header in order with the
      content-length last, and the length announced with content_length(), whatever else the headers
      say. */
  lemma ResponseRoundTrip(status: nat, headers: seq<Header>, length: Option<nat>)
    requires Plain(headers) && status < UINT_LIMIT && (length.Some? ==> length.value < SIZE_LIMIT)
    ensures var c := Capture(NOTHING, [(":status", ToString(status))] + (headers + WithLength(length)));
            && (c.status == Some(status) <==> status < StatusSide.INT_LIMIT) && c.headers == headers + WithLength(length)
            && c.length == if length.Some? then length else LastLength(headers)
  {
    var body := headers + WithLength(length);
    var nva := [(":status", ToString(status))] + body;
    assert nva[1..] == body;
    DigitPrefixWhole(ToString(status));
    ToStringValue(status);
    var c1 := OnHeader(NOTHING, nva[0]);
    assert Plain(body);
    PlainCapture(c1, body);
    assert [] + body == body;
    if length.Some? {
      LastLengthAppend(headers, length.value);
    } else {
      assert headers + [] == headers;
    }
  }

  lemma FrontCapture(path: string)
    ensures Capture(NOTHING, RequestFront(path)) == NOTHING.(path := path)
  {
    var rest1: seq<Header> := [(":scheme", "http"), (":path", path), (":authority", "localhost")];
    var rest2: seq<Header> := [(":path", path), (":authority", "localhost")];
    var rest3: seq<Header> := [(":authority", "localhost")];
    var front, c := RequestFront(path), NOTHING.(path := path);
    assert front[1..] == rest1 && rest1[1..] == rest2 && rest2[1..] == rest3 && rest3[1..] == [];
    assert IsPseudo(":method") && IsPseudo(":scheme") && IsPseudo(":authority");
    assert Capture(c, rest3) == c;
    assert Capture(NOTHING, rest2) == c;
    assert Capture(NOTHING, rest1) == c;
  }

  /** A request arrives as it was submitted: the path, every header in order after the content-length. Its
      announced length is the one given to submit_request exactly unless a later header, by the name
      of content-length too, announces a different one. */
  lemma RequestRoundTrip(path: string, headers: seq<Header>, length: Option<nat>)
    requires Plain(headers) && (length.Some? ==> length.value < SIZE_LIMIT)
    ensures var c := Capture(NOTHING, RequestFront(path) + (WithLength(length) + headers));
            && c.path == path && c.headers == WithLength(length) + headers
            && (c.length == length <==> LastLength(headers).None? || LastLength(headers) == length)
  {
    var body := WithLength(length) + headers;
    var c := NOTHING.(path := path);
    FrontCapture(path);
    CaptureConcat(NOTHING, RequestFront(path), body);
    assert Plain(body);
    PlainCapture(c, body);
    assert [] + body == body;
    if length.Some? {
      LastLengthPrepend(length.value, headers);
    } else {
      assert body == headers;
    }
  }
}
