/** Trace contexts: the traceparent validator (types.py, _validate_traceparent, _is_hex,
    TraceContext) and their wire form (_convert.py, trace_context_to_pb and
    trace_context_from_pb).  The field layout is that of section 3.2 of W3C Trace Context;
    the code also admits upper-case hexadecimal digits. */
module Traceparent {
  import opened Options

  /** str.split(separator) for a one-character separator. */
  function Split(s: string, separator: char): (parts: seq<string>)
    ensures |parts| >= 1
  {
    if s == [] then [[]]
    else
      var rest := Split(s[1..], separator);
      if s[0] == separator then [[]] + rest
      else [[s[0]] + rest[0]] + rest[1..]
  }

  function Join(parts: seq<string>, separator: char): string
    requires |parts| >= 1
  {
    if |parts| == 1 then parts[0] else parts[0] + [separator] + Join(parts[1..], separator)
  }

  predicate IsHexDigit(c: char) {
    '0' <= c <= '9' || 'a' <= c <= 'f' || 'A' <= c <= 'F'
  }

  predicate IsHex(s: string) {
    forall i :: 0 <= i < |s| ==> IsHexDigit(s[i])
  }

  /** set(s) == {"0"} */
  predicate AllZeros(s: string) {
    s != [] && forall i :: 0 <= i < |s| ==> s[i] == '0'
  }

  datatype TraceparentError =
    | WrongFieldCount
    | BadVersion
    | BadTraceId
    | ZeroTraceId
    | BadSpanId
    | ZeroSpanId
    | BadFlags

  /** _validate_traceparent: the error it raises, if any. */
  function Validate(s: string): Option<TraceparentError> {
    var parts := Split(s, '-');
    if |parts| != 4 then Some(WrongFieldCount)
    else
      var version, traceId, spanId, flags := parts[0], parts[1], parts[2], parts[3];
      if |version| != 2 || !IsHex(version) then Some(BadVersion)
      else if |traceId| != 32 || !IsHex(traceId) then Some(BadTraceId)
      else if AllZeros(traceId) then Some(ZeroTraceId)
      else if |spanId| != 16 || !IsHex(spanId) then Some(BadSpanId)
      else if AllZeros(spanId) then Some(ZeroSpanId)
      else if |flags| != 2 || !IsHex(flags) then Some(BadFlags)
      else None
  }

  /** The digits as _is_hex lists them. */
  predicate Listed(c: char) {
    c in "0123456789abcdefABCDEF"
  }

  /** The same language by positions, without splitting. */
  predicate Positional(s: string) {
    && |s| == 55
    && (forall i :: 0 <= i < 55 ==> if i in {2, 35, 52} then s[i] == '-' else Listed(s[i]))
    && (exists i :: 3 <= i < 35 && s[i] != '0')
    && (exists i :: 36 <= i < 52 && s[i] != '0')
  }

  predicate Without(s: string, c: char) {
    forall i :: 0 <= i < |s| ==> s[i] != c
  }

  /** Splitting and joining again gives back the string. */
  lemma {:induction false} JoinSplit(s: string, separator: char)
    ensures Join(Split(s, separator), separator) == s
  {
    if s != [] {
      JoinSplit(s[1..], separator);
      var rest := Split(s[1..], separator);
      if s[0] == separator {
        assert Split(s, separator)[1..] == rest;
      } else {
        JoinPrepend([s[0]], rest, separator);
      }
      assert s == [s[0]] + s[1..];
    }
  }

  lemma JoinPrepend(prefix: string, parts: seq<string>, separator: char)
    requires |parts| >= 1
    ensures Join([prefix + parts[0]] + parts[1..], separator) == prefix + Join(parts, separator)
  {
    var joined := [prefix + parts[0]] + parts[1..];
    assert joined[1..] == parts[1..];
    if |parts| > 1 {
      var tail := [separator] + Join(parts[1..], separator);
      assert (prefix + parts[0]) + tail == prefix + (parts[0] + tail);
    }
  }

  /** Peeling off the first field. */
  lemma {:induction false} SplitField(field: string, tail: string, separator: char)
    requires Without(field, separator)
    ensures Split(field + [separator] + tail, separator) == [field] + Split(tail, separator)
  {
    var s := field + [separator] + tail;
    if field == [] {
      assert s[1..] == tail;
    } else {
      assert s[1..] == field[1..] + [separator] + tail;
      SplitField(field[1..], tail, separator);
      assert [field[0]] + field[1..] == field;
    }
  }

  lemma {:induction false} SplitLastField(field: string, separator: char)
    requires Without(field, separator)
    ensures Split(field, separator) == [field]
  {
    if field != [] {
      SplitLastField(field[1..], separator);
      assert [field[0]] + field[1..] == field;
    }
  }

  lemma HexHasNoHyphen(s: string)
    requires IsHex(s)
    ensures Without(s, '-')
  {
  }

  lemma JoinFour(a: string, b: string, c: string, d: string)
    ensures Join([a, b, c, d], '-') == a + "-" + b + "-" + c + "-" + d
  {
    assert [a, b, c, d][1..] == [b, c, d] && [b, c, d][1..] == [c, d] && [c, d][1..] == [d];
    assert Join([c, d], '-') == c + "-" + d;
    assert Join([b, c, d], '-') == b + "-" + (c + "-" + d);
    assert Join([a, b, c, d], '-') == a + "-" + (b + "-" + (c + "-" + d));
  }

  lemma SplitFour(a: string, b: string, c: string, d: string)
    requires Without(a, '-') && Without(b, '-') && Without(c, '-') && Without(d, '-')
    ensures Split(a + "-" + b + "-" + c + "-" + d, '-') == [a, b, c, d]
  {
    var cd := c + "-" + d;
    var bcd := b + "-" + cd;
    assert a + "-" + b + "-" + c + "-" + d == a + "-" + bcd;
    SplitField(a, bcd, '-');
    SplitField(b, cd, '-');
    SplitField(c, d, '-');
    SplitLastField(d, '-');
  }

  lemma HexDigits(c: char)
    ensures IsHexDigit(c) <==> Listed(c)
  {
    var digits := "0123456789abcdefABCDEF";
    if '0' <= c <= '9' {
      assert c == digits[c as int - '0' as int];
    } else if 'a' <= c <= 'f' {
      assert c == digits[10 + c as int - 'a' as int];
    } else if 'A' <= c <= 'F' {
      assert c == digits[16 + c as int - 'A' as int];
    }
  }

  lemma ValidIsPositional(s: string)
    requires Validate(s).None?
    ensures Positional(s)
  {
    hide Listed, IsHexDigit;
    var parts := Split(s, '-');
    var a, b, c, d := parts[0], parts[1], parts[2], parts[3];
    JoinSplit(s, '-');
    assert parts == [a, b, c, d];
    JoinFour(a, b, c, d);
    assert s[3..35] == b && s[36..52] == c;
    var i :| 0 <= i < |b| && b[i] != '0';
    assert s[3 + i] != '0';
    var j :| 0 <= j < |c| && c[j] != '0';
    assert s[36 + j] != '0';
    forall i | 0 <= i < 55 ensures if i in {2, 35, 52} then s[i] == '-' else Listed(s[i]) {
      HexDigits(s[i]);
      if i < 2 { assert s[i] == a[i]; }
      else if 3 <= i < 35 { assert s[i] == b[i - 3]; }
      else if 36 <= i < 52 { assert s[i] == c[i - 36]; }
      else if 53 <= i { assert s[i] == d[i - 53]; }
    }
  }

  lemma FieldsAreHex(s: string)
    requires Positional(s)
    ensures |s| == 55 && s[2] == s[35] == s[52] == '-'
    ensures IsHex(s[..2]) && IsHex(s[3..35]) && IsHex(s[36..52]) && IsHex(s[53..])
    ensures !AllZeros(s[3..35]) && !AllZeros(s[36..52])
  {
    hide Listed, IsHexDigit;
    forall i | 0 <= i < 55 && i !in {2, 35, 52} ensures IsHexDigit(s[i]) {
      HexDigits(s[i]);
    }
    var i :| 3 <= i < 35 && s[i] != '0';
    assert s[3..35][i - 3] != '0';
    var j :| 36 <= j < 52 && s[j] != '0';
    assert s[36..52][j - 36] != '0';
  }

  lemma FourFields(s: string)
    requires |s| == 55 && s[2] == s[35] == s[52] == '-'
    ensures s == s[..2] + "-" + s[3..35] + "-" + s[36..52] + "-" + s[53..]
  {
  }

  lemma PositionalIsValid(s: string)
    requires Positional(s)
    ensures Validate(s).None?
    ensures Split(s, '-') == [s[..2], s[3..35], s[36..52], s[53..]]
  {
    var a, b, c, d := s[..2], s[3..35], s[36..52], s[53..];
    FieldsAreHex(s);
    hide Positional, IsHex, AllZeros, Split;
    assert IsHex(a) && IsHex(b) && IsHex(c) && IsHex(d);
    HexHasNoHyphen(a);
    HexHasNoHyphen(b);
    HexHasNoHyphen(c);
    HexHasNoHyphen(d);
    FourFields(s);
    SplitFour(a, b, c, d);
  }

  /** The split-and-check validator accepts exactly the positional grammar. */
  lemma ValidatorIsGrammar(s: string)
    ensures Validate(s).None? <==> Positional(s)
  {
    if Validate(s).None? {
      ValidIsPositional(s);
    }
    if Positional(s) {
      PositionalIsValid(s);
    }
  }

  // ------------------------------------------------------------------------- wire form

  datatype RawTraceContext = TraceContext(traceparent: string, tracestate: Option<string>)

  /** A TraceContext cannot be built around an invalid traceparent. */
  type TraceContext = t: RawTraceContext | Validate(t.traceparent).None?
    ghost witness WitnessContext()

  ghost function WitnessContext(): (t: RawTraceContext)
    ensures Validate(t.traceparent).None?
  {
    var s := seq(55, i => if i in {2, 35, 52} then '-' else '1');
    assert s[3] == '1' && s[36] == '1';
    PositionalIsValid(s);
    TraceContext(s, None)
  }

  datatype PbTraceContext = PbTraceContext(traceparent: string, tracestate: Option<string>)

  function TraceContextToPb(t: TraceContext): PbTraceContext {
    PbTraceContext(t.traceparent, t.tracestate)
  }

  /** An invalid trace context is dropped, not an error. */
  function TraceContextFromPb(m: PbTraceContext): Option<TraceContext> {
    if Validate(m.traceparent).None? then Some(TraceContext(m.traceparent, m.tracestate)) else None
  }

  /** Accepted contexts survive the wire both ways; a received one is kept exactly when its
      traceparent is in the grammar, and is then sent on unchanged. */
  lemma TraceContextRoundTrip(m: PbTraceContext)
    ensures forall t: TraceContext :: TraceContextFromPb(TraceContextToPb(t)) == Some(t)
    ensures TraceContextFromPb(m).Some? <==> Positional(m.traceparent)
    ensures TraceContextFromPb(m).Some? ==> TraceContextToPb(TraceContextFromPb(m).value) == m
  {
    ValidatorIsGrammar(m.traceparent);
  }
}
