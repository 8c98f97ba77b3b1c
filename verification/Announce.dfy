/** Sealing and opening announcements: announce.go. */
module Announce {
  import opened Common

  /** AnnounceWindow, in nanoseconds, and maxAnnounceBytes. */
  const WINDOW: int := 10_000_000_000
  const MAX_BYTES: nat := 32768

  /** contracts.Category. */
  type Category = string

  const MEMORY: Category := "memory"
  const ORCHESTRATOR: Category := "orchestrator"
  const BACKEND: Category := "backend"

  /** The rest of contracts.Manifest, which is not part of this model. */
  type ManifestRest(==, !new)

  datatype Manifest = Manifest(category: Category, rest: ManifestRest)

  datatype Announcement = Announcement(manifest: Manifest, grpcAddr: string, instanceID: string)

  datatype Envelope = Envelope(issuedAt: Int64, body: Bytes, mac: Bytes)

  /** The zero AnnounceKey holds no material. */
  datatype AnnounceKey = AnnounceKey(material: Option<Bytes>)

  datatype AnnounceError =
    | NoAnnounceKey
    | MarshalFailed
    | Oversized
    | Malformed
    | Unauthenticated
    | Stale
    | Unusable
    | AddrRefused

  /** What the repository takes from its libraries: the encoding of an announcement, the
      strict decoder at both types, and HMAC-SHA256. */
  datatype Library = Library(
    marshal: Announcement -> Option<Bytes>,
    strictBody: Bytes -> Option<Announcement>,
    strictEnvelope: Bytes -> Option<Envelope>,
    hmac: (Bytes, Bytes) -> Bytes)

  ghost predicate Sound(lib: Library) {
    && (forall a :: lib.marshal(a).Some? ==> lib.strictBody(lib.marshal(a).value) == Some(a))
    && (forall e :: lib.strictEnvelope(MarshalEnvelope(e)) == Some(e))
    && (forall k, m :: |lib.hmac(k, m)| == 32)
  }

  // ---- bytes -----------------------------------------------------------------

  predicate IsAscii(s: string) { forall i :: 0 <= i < |s| ==> s[i] < 128 as char }

  function Ascii(s: string): (b: Bytes)
    requires IsAscii(s)
    ensures |b| == |s| && forall i :: 0 <= i < |s| ==> b[i] == s[i] as int
  {
    seq(|s|, i requires 0 <= i < |s| => s[i] as int)
  }

  function DecimalBytes(n: int): Bytes { Ascii(Decimal(n)) }

  const NEWLINE: Byte := 10

  /** The bytes that are authenticated. */
  function MacInput(issuedAt: Int64, body: Bytes): Bytes {
    DecimalBytes(issuedAt) + [NEWLINE] + body
  }

  /** The part before the first delimiter and the part behind it determine each other. */
  lemma FirstDelimiterSplits(d: Byte, a: Bytes, x: Bytes, b: Bytes, y: Bytes)
    requires d !in a && d !in b && a + [d] + x == b + [d] + y
    ensures a == b && x == y
  {
    var whole := a + [d] + x;
    assert forall k :: 0 <= k < |a| ==> whole[k] == a[k] != d;
    assert whole == b + [d] + y;
    assert forall k :: 0 <= k < |b| ==> whole[k] == b[k] != d;
    assert whole[|a|] == d && whole[|b|] == d;
    assert |a| == |b|;
    assert whole[..|a|] == a && whole[..|b|] == b;
    assert whole[|a| + 1..] == x && whole[|b| + 1..] == y;
  }

  lemma AsciiInjective(s: string, t: string)
    requires IsAscii(s) && IsAscii(t) && Ascii(s) == Ascii(t)
    ensures s == t
  {
    assert forall i :: 0 <= i < |s| ==> s[i] == Ascii(s)[i] as char && t[i] == Ascii(t)[i] as char;
  }

  lemma DecimalBytesInjective(m: int, n: int)
    requires DecimalBytes(m) == DecimalBytes(n)
    ensures m == n
  {
    AsciiInjective(Decimal(m), Decimal(n));
    DecimalInjective(m, n);
  }

  /** No two different announcements share the authenticated bytes, whatever digits and
      newlines their bodies hold. */
  lemma MacInputInjective(t: Int64, body: Bytes, t': Int64, body': Bytes)
    requires MacInput(t, body) == MacInput(t', body')
    ensures t == t' && body == body'
  {
    FirstDelimiterSplits(NEWLINE, DecimalBytes(t), body, DecimalBytes(t'), body');
    DecimalBytesInjective(t, t');
  }

  // ---- the envelope on the wire ----------------------------------------------

  function Base64Digit(n: int): char
    requires 0 <= n < 64
  {
    if n < 26 then 'A' + n as char
    else if n < 52 then 'a' + (n - 26) as char
    else if n < 62 then '0' + (n - 52) as char
    else if n == 62 then '+' else '/'
  }

  function Quad(a: Byte, b: Byte, c: Byte): (s: string)
    ensures IsAscii(s) && |s| == 4
  {
    [Base64Digit(a / 4), Base64Digit(a % 4 * 16 + b / 16), Base64Digit(b % 16 * 4 + c / 64), Base64Digit(c % 64)]
  }

  /** Section 4 of RFC 4648. */
  function Base64(b: Bytes): (s: string)
    ensures IsAscii(s) && |s| == 4 * ((|b| + 2) / 3)
  {
    if |b| == 0 then ""
    else if |b| == 1 then Quad(b[0], 0, 0)[..2] + "=="
    else if |b| == 2 then Quad(b[0], b[1], 0)[..3] + "="
    else Quad(b[0], b[1], b[2]) + Base64(b[3..])
  }

  const COMMA: Byte := 44
  const QUOTE: Byte := 34

  /** The literal texts around the three fields of an envelope. */
  datatype Layout = Layout(head: Bytes, body: Bytes, mac: Bytes, end: Bytes)

  /** A field in base64, its closing quote, and what follows. */
  function Field(name: Bytes, value: Bytes, rest: Bytes): Bytes {
    name + (Ascii(Base64(value)) + [QUOTE] + rest)
  }

  function Lay(l: Layout, e: Envelope): Bytes {
    l.head + (DecimalBytes(e.issuedAt) + [COMMA] + Field(l.body, e.body, Field(l.mac, e.mac, l.end)))
  }

  /** The JSON text of an envelope. */
  function MarshalEnvelope(e: Envelope): Bytes {
    Lay(JsonLayout(), e)
  }

  function JsonLayout(): Layout {
    Layout(Ascii("{\"issued_at_unix_nano\":"), Ascii("\"body\":\""), Ascii(",\"mac\":\""), Ascii("}"))
  }

  lemma Base64DigitInjective(m: int, n: int)
    requires 0 <= m < 64 && 0 <= n < 64
    ensures Base64Digit(m) == Base64Digit(n) ==> m == n
    ensures Base64Digit(m) != '=' && Base64Digit(m) != '"'
  {}

  lemma {:induction false} Base64HasNoQuote(b: Bytes)
    ensures '"' !in Base64(b)
  {
    if |b| > 2 { Base64HasNoQuote(b[3..]); }
  }

  lemma Base64GroupInjective(a0: Byte, a1: Byte, a2: Byte, b0: Byte, b1: Byte, b2: Byte)
    requires a0 / 4 == b0 / 4 && a0 % 4 * 16 + a1 / 16 == b0 % 4 * 16 + b1 / 16
    requires a1 % 16 * 4 + a2 / 64 == b1 % 16 * 4 + b2 / 64 && a2 % 64 == b2 % 64
    ensures a0 == b0 && a1 == b1 && a2 == b2
  {}

  /** The first three bytes, missing ones read as zero. */
  function Group(b: Bytes): (Byte, Byte, Byte)
    requires b != []
  {
    (b[0], if |b| > 1 then b[1] else 0, if |b| > 2 then b[2] else 0)
  }

  lemma Base64FirstGroup(b: Bytes)
    requires b != []
    ensures var g, s := Group(b), Base64(b);
      && |s| >= 4
      && s[0] == Base64Digit(g.0 / 4) && s[1] == Base64Digit(g.0 % 4 * 16 + g.1 / 16)
      && s[2] == (if |b| > 1 then Base64Digit(g.1 % 16 * 4 + g.2 / 64) else '=')
      && s[3] == (if |b| > 2 then Base64Digit(g.2 % 64) else '=')
  {}

  /** The second and third byte are missing exactly where the padding is. */
  lemma PaddingShowsLength(a: Bytes, b: Bytes)
    requires a != [] && b != [] && Base64(a) == Base64(b)
    ensures (|a| > 1 <==> |b| > 1) && (|a| > 2 <==> |b| > 2)
  {
    PaddingTells(a);
    PaddingTells(b);
  }

  lemma PaddingTells(b: Bytes)
    requires b != []
    ensures |Base64(b)| >= 4 && (|b| > 1 <==> Base64(b)[2] != '=') && (|b| > 2 <==> Base64(b)[3] != '=')
  {
    Base64FirstGroup(b);
    var g := Group(b);
    Base64DigitInjective(g.1 % 16 * 4 + g.2 / 64, 0);
    Base64DigitInjective(g.2 % 64, 0);
  }

  lemma FirstGroupsEqual(a: Bytes, b: Bytes)
    requires a != [] && b != [] && Base64(a) == Base64(b)
    ensures Group(a) == Group(b) && (|a| > 1 <==> |b| > 1) && (|a| > 2 <==> |b| > 2)
  {
    PaddingShowsLength(a, b);
    SextetsEqual(a, b);
    var x, y := Group(a), Group(b);
    Base64GroupInjective(x.0, x.1, x.2, y.0, y.1, y.2);
  }

  lemma SextetsEqual(a: Bytes, b: Bytes)
    requires a != [] && b != [] && Base64(a) == Base64(b) && (|a| > 1 <==> |b| > 1) && (|a| > 2 <==> |b| > 2)
    ensures var x, y := Group(a), Group(b);
      && x.0 / 4 == y.0 / 4 && x.0 % 4 * 16 + x.1 / 16 == y.0 % 4 * 16 + y.1 / 16
      && x.1 % 16 * 4 + x.2 / 64 == y.1 % 16 * 4 + y.2 / 64 && x.2 % 64 == y.2 % 64
  {
    Base64FirstGroup(a);
    Base64FirstGroup(b);
    var x, y := Group(a), Group(b);
    Base64DigitInjective(x.0 / 4, y.0 / 4);
    Base64DigitInjective(x.0 % 4 * 16 + x.1 / 16, y.0 % 4 * 16 + y.1 / 16);
    Base64DigitInjective(x.1 % 16 * 4 + x.2 / 64, y.1 % 16 * 4 + y.2 / 64);
    Base64DigitInjective(x.2 % 64, y.2 % 64);
  }

  lemma {:induction false} Base64Injective(a: Bytes, b: Bytes)
    requires Base64(a) == Base64(b)
    ensures a == b
  {
    if a != [] {
      FirstGroupsEqual(a, b);
      if |a| > 2 {
        Base64Tail(a);
        Base64Tail(b);
        Base64Injective(a[3..], b[3..]);
        assert a == [a[0], a[1], a[2]] + a[3..] && b == [b[0], b[1], b[2]] + b[3..];
      }
    }
  }

  lemma Base64Tail(b: Bytes)
    requires |b| > 2
    ensures Base64(b)[4..] == Base64(b[3..])
  {}

  lemma CancelPrefix(p: Bytes, a: Bytes, b: Bytes)
    requires p + a == p + b
    ensures a == b
  {
    assert (p + a)[|p|..] == a && (p + b)[|p|..] == b;
  }

  lemma NoQuoteIn(b: Bytes)
    ensures QUOTE !in Ascii(Base64(b))
  {
    Base64HasNoQuote(b);
    var s := Base64(b);
    assert forall i :: 0 <= i < |s| ==> s[i] in s;
  }

  lemma FieldInjective(name: Bytes, x: Bytes, rest: Bytes, y: Bytes, rest': Bytes)
    requires Field(name, x, rest) == Field(name, y, rest')
    ensures x == y && rest == rest'
  {
    CancelPrefix(name, Ascii(Base64(x)) + [QUOTE] + rest, Ascii(Base64(y)) + [QUOTE] + rest');
    NoQuoteIn(x);
    NoQuoteIn(y);
    FirstDelimiterSplits(QUOTE, Ascii(Base64(x)), rest, Ascii(Base64(y)), rest');
    AsciiInjective(Base64(x), Base64(y));
    Base64Injective(x, y);
  }

  /** Different envelopes have different texts, so a decoder as Sound asks for exists. */
  lemma LayInjective(l: Layout, e: Envelope, f: Envelope)
    requires Lay(l, e) == Lay(l, f)
    ensures e == f
  {
    var x, y := Field(l.body, e.body, Field(l.mac, e.mac, l.end)), Field(l.body, f.body, Field(l.mac, f.mac, l.end));
    CancelPrefix(l.head, DecimalBytes(e.issuedAt) + [COMMA] + x, DecimalBytes(f.issuedAt) + [COMMA] + y);
    FirstDelimiterSplits(COMMA, DecimalBytes(e.issuedAt), x, DecimalBytes(f.issuedAt), y);
    DecimalBytesInjective(e.issuedAt, f.issuedAt);
    FieldInjective(l.body, e.body, Field(l.mac, e.mac, l.end), f.body, Field(l.mac, f.mac, l.end));
    FieldInjective(l.mac, e.mac, l.end, f.mac, l.end);
  }

  /** Table 1 of RFC 4648. */
  lemma Base64DigitIsOfAlphabet(n: int)
    requires 0 <= n < 64
    ensures n < 26 ==> Base64Digit(n) == "ABCDEFGHIJKLMNOPQRSTUVWXYZ"[n]
    ensures 26 <= n < 52 ==> Base64Digit(n) == "abcdefghijklmnopqrstuvwxyz"[n - 26]
    ensures 52 <= n < 62 ==> Base64Digit(n) == "0123456789"[n - 52]
    ensures (n == 62 ==> Base64Digit(n) == '+') && (n == 63 ==> Base64Digit(n) == '/')
  {}

  lemma Behind(front: Bytes, a: Bytes, b: Bytes, c: Bytes, d: Bytes)
    ensures front + (a + (b + c + d)) == front + a + b + c + d
  {}

  lemma LayText(l: Layout, e: Envelope)
    ensures Lay(l, e) ==
              l.head + DecimalBytes(e.issuedAt) + [COMMA] + l.body + Ascii(Base64(e.body)) + [QUOTE]
              + l.mac + Ascii(Base64(e.mac)) + [QUOTE] + l.end
  {
    var front := l.head + DecimalBytes(e.issuedAt) + [COMMA];
    HeadSplits(l.head, DecimalBytes(e.issuedAt), [COMMA], Field(l.body, e.body, Field(l.mac, e.mac, l.end)));
    FieldBehind(front, l.body, e.body, Field(l.mac, e.mac, l.end));
    FieldBehind(front + l.body + Ascii(Base64(e.body)) + [QUOTE], l.mac, e.mac, l.end);
  }

  lemma HeadSplits(a: Bytes, b: Bytes, c: Bytes, d: Bytes)
    ensures a + (b + c + d) == a + b + c + d
  {}

  lemma FieldBehind(front: Bytes, name: Bytes, value: Bytes, rest: Bytes)
    ensures front + Field(name, value, rest) == front + name + Ascii(Base64(value)) + [QUOTE] + rest
  {
    Behind(front, name, Ascii(Base64(value)), [QUOTE], rest);
  }

  /** The text of an envelope, written out: comma and double quote are bytes 44 and 34. */
  lemma EnvelopeText(e: Envelope)
    ensures MarshalEnvelope(e) ==
              Ascii("{\"issued_at_unix_nano\":") + Ascii(Decimal(e.issuedAt)) + [44]
              + Ascii("\"body\":\"") + Ascii(Base64(e.body)) + [34]
              + Ascii(",\"mac\":\"") + Ascii(Base64(e.mac)) + [34] + Ascii("}")
  {
    LayText(JsonLayout(), e);
  }

  /** Different envelopes have different JSON texts. */
  lemma MarshalInjective(e: Envelope, f: Envelope)
    requires MarshalEnvelope(e) == MarshalEnvelope(f)
    ensures e == f
  {
    LayInjective(JsonLayout(), e, f);
  }

  lemma {:induction false} DigitsBound(n: nat, width: nat, bound: nat)
    requires width >= 1 && n < bound && bound == Power10(width)
    ensures |Digits(n)| <= width
  {
    if n >= 10 { DigitsBound(n / 10, width - 1, Power10(width - 1)); }
  }

  function Power10(width: nat): (p: nat)
    ensures p >= 1
  {
    if width == 0 then 1 else 10 * Power10(width - 1)
  }

  /** An int64 takes at most twenty characters. */
  lemma Int64Width(n: Int64)
    ensures 1 <= |Decimal(n)| <= 20
  {
    assert Power10(5) == 100000;
    assert Power10(10) == 100000 * 100000;
    assert Power10(15) == 1000000000000000;
    assert Power10(19) == 10000000000000000000;
    var m: int := n;
    if m < 0 { DigitsBound(-m, 19, Power10(19)); } else { DigitsBound(m, 19, Power10(19)); }
  }

  lemma SealedSize(lib: Library, key: Bytes, t: Int64, body: Bytes)
    requires Sound(lib)
    ensures |MarshalEnvelope(Envelope(t, body, lib.hmac(key, MacInput(t, body))))|
         == 87 + |Decimal(t)| + 4 * ((|body| + 2) / 3)
  {
    assert |"{\"issued_at_unix_nano\":"| == 23 && |"\"body\":\""| == 8 && |",\"mac\":\""| == 8 && |"}"| == 1;
  }

  /** Every body of at most 24495 bytes fits the size bound, and from eighteen characters of
      issue time on no larger one does. */
  lemma BodySizeBound(lib: Library, key: Bytes, t: Int64, body: Bytes)
    requires Sound(lib)
    ensures var size := |MarshalEnvelope(Envelope(t, body, lib.hmac(key, MacInput(t, body))))|;
      && (|body| <= 24495 ==> size <= MAX_BYTES)
      && (|Decimal(t)| >= 18 ==> (size <= MAX_BYTES <==> |body| <= 24495))
  {
    SealedSize(lib, key, t, body);
    Int64Width(t);
  }

  // ---- time ------------------------------------------------------------------

  /** Two's complement: the int64 that a 64-bit computation of n leaves. */
  function Wrap64(n: int): Int64 { (n + TWO_63) % TWO_64 - TWO_63 }

  /** time.Time.Sub on times in nanoseconds: a 64-bit difference, kept if adding it back
      gives t, and saturated otherwise. */
  function Sub(t: int, u: int): Int64 {
    var d := Wrap64(t - u);
    if u + d == t then d else if t < u then -TWO_63 else TWO_63 - 1
  }

  /** time.Duration.Abs. */
  function Abs(d: Int64): Int64 {
    if d >= 0 then d else if d == -TWO_63 then TWO_63 - 1 else -d
  }

  function Distance(t: int, u: int): nat { if t >= u then t - u else u - t }

  predicate Fresh(now: int, issuedAt: Int64) { Abs(Sub(now, issuedAt)) <= WINDOW }

  /** Saturation never matters: for all clocks, freshness is the integer distance, edges included. */
  lemma FreshIsDistance(now: int, issuedAt: Int64)
    ensures Fresh(now, issuedAt) <==> Distance(now, issuedAt) <= WINDOW == 10_000_000_000
  {
    var diff := now - issuedAt;
    if -TWO_63 <= diff < TWO_63 { WrapInRange(diff); }
  }

  lemma WrapInRange(n: int)
    requires -TWO_63 <= n < TWO_63
    ensures Wrap64(n) == n
  {
    assert 0 <= n + TWO_63 < TWO_64;
  }

  // ---- seal and open ---------------------------------------------------------

  function Seal(lib: Library, key: AnnounceKey, ann: Announcement, now: int): Result<Bytes, AnnounceError> {
    if key.material.None? then Err(NoAnnounceKey)
    else
      match lib.marshal(ann)
      case None => Err(MarshalFailed)
      case Some(body) =>
        var issuedAt := Wrap64(now);
        Ok(MarshalEnvelope(Envelope(issuedAt, body, lib.hmac(key.material.value, MacInput(issuedAt, body)))))
  }

  /** The MAC of an envelope verifies under a key. */
  predicate Verifies(lib: Library, key: Bytes, e: Envelope) {
    e.mac == lib.hmac(key, MacInput(e.issuedAt, e.body))
  }

  function Open(lib: Library, key: AnnounceKey, payload: Bytes, now: int): Result<Announcement, AnnounceError> {
    if key.material.None? then Err(NoAnnounceKey)
    else if |payload| > MAX_BYTES then Err(Oversized)
    else
      match lib.strictEnvelope(payload)
      case None => Err(Malformed)
      case Some(e) =>
        if !Verifies(lib, key.material.value, e) then Err(Unauthenticated)
        else if !Fresh(now, e.issuedAt) then Err(Stale)
        else
          match lib.strictBody(e.body)
          case None => Err(Malformed)
          case Some(ann) => Ok(ann)
  }

  /** What acceptance means. */
  lemma OpenAccepts(lib: Library, key: AnnounceKey, payload: Bytes, now: int, ann: Announcement)
    ensures Open(lib, key, payload, now) == Ok(ann) <==>
      && key.material.Some? && |payload| <= MAX_BYTES
      && (var e := lib.strictEnvelope(payload);
          && e.Some? && Authentic(lib, key.material.value, e.value)
          && Distance(now, e.value.issuedAt) <= WINDOW && lib.strictBody(e.value.body) == Some(ann))
  {
    if lib.strictEnvelope(payload).Some? { FreshIsDistance(now, lib.strictEnvelope(payload).value.issuedAt); }
  }

  /** What each refusal means. Only an authenticated message has its freshness looked at, and
      only a fresh one its body: a bad body under a wrong MAC is unauthenticated, not malformed. */
  lemma RefusalsMean(lib: Library, key: AnnounceKey, payload: Bytes, now: int)
    requires key.material.Some?
    ensures var r, e := Open(lib, key, payload, now), lib.strictEnvelope(payload);
      && (r == Err(Oversized) <==> |payload| > 32768)
      && (r == Err(Unauthenticated) <==>
            |payload| <= 32768 && e.Some? && !Authentic(lib, key.material.value, e.value))
      && (r == Err(Stale) <==>
            && |payload| <= 32768 && e.Some? && Authentic(lib, key.material.value, e.value)
            && Distance(now, e.value.issuedAt) > 10_000_000_000)
      && (r == Err(Malformed) <==>
            && |payload| <= 32768
            && (e.None? || (&& Authentic(lib, key.material.value, e.value)
                            && Distance(now, e.value.issuedAt) <= 10_000_000_000
                            && lib.strictBody(e.value.body).None?)))
      && (r.Ok? || r.error.Oversized? || r.error.Unauthenticated? || r.error.Stale? || r.error.Malformed?)
  {
    if lib.strictEnvelope(payload).Some? { FreshIsDistance(now, lib.strictEnvelope(payload).value.issuedAt); }
  }

  /** The MAC is that of the time in decimal, a newline and the body. */
  predicate Authentic(lib: Library, key: Bytes, e: Envelope) {
    e.mac == lib.hmac(key, DecimalBytes(e.issuedAt) + [10] + e.body)
  }

  /** Without a key nothing is opened. */
  lemma NothingOpensWithoutKey(lib: Library, key: AnnounceKey, payload: Bytes, now: int)
    ensures Open(lib, key, payload, now) == Err(NoAnnounceKey) <==> key.material.None?
  {}

  /** Sealing succeeds exactly when the key has material and the announcement encodes. The result
      is the JSON text of an envelope that holds the time in 64 bits, the body, and the MAC over
      the time in decimal, a newline and the body. */
  lemma SealMeans(lib: Library, key: AnnounceKey, ann: Announcement, now: int)
    ensures Seal(lib, key, ann, now) == Err(NoAnnounceKey) <==> key.material.None?
    ensures Seal(lib, key, ann, now) == Err(MarshalFailed) <==> key.material.Some? && lib.marshal(ann).None?
    ensures key.material.Some? && lib.marshal(ann).Some? ==>
              exists e :: Seal(lib, key, ann, now) == Ok(MarshalEnvelope(e))
                     && e.issuedAt == Wrap64(now) && e.body == lib.marshal(ann).value
                     && e.mac == lib.hmac(key.material.value, DecimalBytes(e.issuedAt) + [10] + e.body)
  {
    if key.material.Some? && lib.marshal(ann).Some? {
      var issuedAt, body := Wrap64(now), lib.marshal(ann).value;
      var e := Envelope(issuedAt, body, lib.hmac(key.material.value, MacInput(issuedAt, body)));
      assert Seal(lib, key, ann, now) == Ok(MarshalEnvelope(e));
    }
  }

  /** A sealed announcement opens to itself exactly when the clocks are at most the window
      apart, and is stale otherwise; the issue time is the sealing time in 64 bits. */
  lemma OpenSealed(lib: Library, key: AnnounceKey, ann: Announcement, sealedAt: int, now: int)
    requires Sound(lib) && Seal(lib, key, ann, sealedAt).Ok?
    ensures var payload := Seal(lib, key, ann, sealedAt).value;
      if |payload| > MAX_BYTES then Open(lib, key, payload, now) == Err(Oversized)
      else if Distance(now, Wrap64(sealedAt)) <= WINDOW then Open(lib, key, payload, now) == Ok(ann)
      else Open(lib, key, payload, now) == Err(Stale)
  {
    var e := SealedEnvelope(lib, key, ann, sealedAt);
    OpenEnvelope(lib, key, Seal(lib, key, ann, sealedAt).value, e, ann, now);
  }

  lemma SealedEnvelope(lib: Library, key: AnnounceKey, ann: Announcement, sealedAt: int) returns (e: Envelope)
    requires Sound(lib) && Seal(lib, key, ann, sealedAt).Ok?
    ensures key.material.Some? && lib.strictEnvelope(Seal(lib, key, ann, sealedAt).value) == Some(e)
    ensures e.issuedAt == Wrap64(sealedAt) && Verifies(lib, key.material.value, e)
    ensures lib.strictBody(e.body) == Some(ann)
  {
    var issuedAt, body := Wrap64(sealedAt), lib.marshal(ann).value;
    e := Envelope(issuedAt, body, lib.hmac(key.material.value, MacInput(issuedAt, body)));
  }

  lemma OpenEnvelope(lib: Library, key: AnnounceKey, payload: Bytes, e: Envelope, ann: Announcement, now: int)
    requires key.material.Some? && lib.strictEnvelope(payload) == Some(e)
    requires Verifies(lib, key.material.value, e) && lib.strictBody(e.body) == Some(ann)
    ensures Open(lib, key, payload, now) ==
              if |payload| > MAX_BYTES then Err(Oversized)
              else if Distance(now, e.issuedAt) <= WINDOW then Ok(ann)
              else Err(Stale)
  {
    FreshIsDistance(now, e.issuedAt);
  }

  /** The clock distance decides if and only if the sealing time fits int64 nanoseconds:
      outside that range even the sealer's own clock finds the announcement stale. */
  lemma SealingTimeMustFit(lib: Library, key: AnnounceKey, ann: Announcement, sealedAt: int)
    requires Sound(lib) && Seal(lib, key, ann, sealedAt).Ok? && |Seal(lib, key, ann, sealedAt).value| <= MAX_BYTES
    ensures Open(lib, key, Seal(lib, key, ann, sealedAt).value, sealedAt) == Ok(ann) <==> -TWO_63 <= sealedAt < TWO_63
    ensures -TWO_63 <= sealedAt < TWO_63 ==> forall now ::
              Open(lib, key, Seal(lib, key, ann, sealedAt).value, now) == Ok(ann) <==> Distance(now, sealedAt) <= WINDOW
  {
    OpenSealed(lib, key, ann, sealedAt, sealedAt);
    if -TWO_63 <= sealedAt < TWO_63 {
      WrapInRange(sealedAt);
      forall now
        ensures Open(lib, key, Seal(lib, key, ann, sealedAt).value, now) == Ok(ann)
           <==> Distance(now, sealedAt) <= WINDOW
      {
        OpenSealed(lib, key, ann, sealedAt, now);
      }
    } else {
      WrapIsFar(sealedAt);
    }
  }

  lemma WrapIsFar(n: int)
    requires !(-TWO_63 <= n < TWO_63)
    ensures Distance(n, Wrap64(n)) >= TWO_64
  {
    var q := (n + TWO_63) / TWO_64;
    assert n + TWO_63 == q * TWO_64 + (n + TWO_63) % TWO_64;
    assert n - Wrap64(n) == q * TWO_64;
    assert q != 0;
  }
}
