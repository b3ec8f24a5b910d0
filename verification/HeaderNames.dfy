/** The headers with a fixed slot in a header map, and their canonical keys. */
module HeaderNames {

  /** A header line: name and value. */
  datatype Header = Header(name: string, value: string)

  /** A fixed header, by its position in the list of all of them. */
  type Inline = i: nat | i < 48

  const CONTENT_LENGTH_SLOT: Inline := 14
  const HOST_SLOT: Inline := 25
  const METHOD_SLOT: Inline := 28
  const PATH_SLOT: Inline := 31
  const TRANSFER_ENCODING_SLOT: Inline := 39

  /** The canonical key of a fixed header: all in lower case. */
  function KeyOf(x: Inline): string {
    if x < 12 then Keys0(x) else if x < 24 then Keys12(x) else if x < 36 then Keys24(x) else Keys36(x)
  }

  function Keys0(x: Inline): string {
    match x
    case 0 => "accept-encoding" case 1 => "access-control-request-headers"
    case 2 => "access-control-request-method" case 3 => "access-control-allow-origin"
    case 4 => "access-control-allow-headers" case 5 => "access-control-allow-methods"
    case 6 => "access-control-allow-credentials" case 7 => "access-control-expose-headers"
    case 8 => "access-control-max-age" case 9 => "authorization" case 10 => "cache-control"
    case _ => "x-client-trace-id"
  }

  function Keys12(x: Inline): string {
    match x
    case 12 => "connection" case 13 => "content-encoding" case 14 => "content-length" case 15 => "content-type"
    case 16 => "date" case 17 => "etag" case 18 => "expect" case 19 => "x-forwarded-client-cert"
    case 20 => "x-forwarded-for" case 21 => "x-forwarded-proto" case 22 => "grpc-accept-encoding"
    case _ => "grpc-message"
  }

  function Keys24(x: Inline): string {
    match x
    case 24 => "grpc-status" case 25 => ":authority" case 26 => "keep-alive" case 27 => "last-modified"
    case 28 => ":method" case 29 => "origin" case 30 => "x-ot-span-context" case 31 => ":path"
    case 32 => "proxy-connection" case 33 => "referer" case 34 => "x-request-id" case _ => ":scheme"
  }

  function Keys36(x: Inline): string {
    match x
    case 36 => "server" case 37 => ":status" case 38 => "te" case 39 => "transfer-encoding" case 40 => "upgrade"
    case 41 => "user-agent" case 42 => "vary" case 43 => "x-b3-traceid" case 44 => "x-b3-spanid"
    case 45 => "x-b3-parentspanid" case 46 => "x-b3-sampled" case _ => "x-b3-flags"
  }

  lemma {:induction false} Apart0And0(x: Inline, y: Inline)
    requires 0 <= x < 12 && 0 <= y < 12 && KeyOf(x) == KeyOf(y)
    ensures x == y
  {
    hide Keys12, Keys24, Keys36;
  }

  lemma {:induction false} Apart0And12(x: Inline, y: Inline)
    requires 0 <= x < 12 && 12 <= y < 24
    ensures KeyOf(x) != KeyOf(y)
  {
    hide Keys24, Keys36;
  }

  lemma {:induction false} Apart0And24(x: Inline, y: Inline)
    requires 0 <= x < 12 && 24 <= y < 36
    ensures KeyOf(x) != KeyOf(y)
  {
    hide Keys12, Keys36;
  }

  lemma {:induction false} Apart0And36(x: Inline, y: Inline)
    requires 0 <= x < 12 && 36 <= y < 48
    ensures KeyOf(x) != KeyOf(y)
  {
    hide Keys12, Keys24;
  }

  lemma {:induction false} Apart12And12(x: Inline, y: Inline)
    requires 12 <= x < 24 && 12 <= y < 24 && KeyOf(x) == KeyOf(y)
    ensures x == y
  {
    hide Keys0, Keys24, Keys36;
  }

  lemma {:induction false} Apart12And24(x: Inline, y: Inline)
    requires 12 <= x < 24 && 24 <= y < 36
    ensures KeyOf(x) != KeyOf(y)
  {
    hide Keys0, Keys36;
  }

  lemma {:induction false} Apart12And36(x: Inline, y: Inline)
    requires 12 <= x < 24 && 36 <= y < 48
    ensures KeyOf(x) != KeyOf(y)
  {
    hide Keys0, Keys24;
  }

  lemma {:induction false} Apart24And24(x: Inline, y: Inline)
    requires 24 <= x < 36 && 24 <= y < 36 && KeyOf(x) == KeyOf(y)
    ensures x == y
  {
    hide Keys0, Keys12, Keys36;
  }

  lemma {:induction false} Apart24And36(x: Inline, y: Inline)
    requires 24 <= x < 36 && 36 <= y < 48
    ensures KeyOf(x) != KeyOf(y)
  {
    hide Keys0, Keys12;
  }

  lemma {:induction false} Apart36And36(x: Inline, y: Inline)
    requires 36 <= x < 48 && 36 <= y < 48 && KeyOf(x) == KeyOf(y)
    ensures x == y
  {
    hide Keys0, Keys12, Keys24;
  }

  /** Different headers have different keys. */
  lemma {:induction false} KeyInjective(x: Inline, y: Inline)
    requires KeyOf(x) == KeyOf(y)
    ensures x == y
  {
    hide KeyOf;
    if x > y {
      KeyInjective(y, x);
    } else if x < 12 && y < 12 {
      Apart0And0(x, y);
    } else if x < 12 && y < 24 {
      Apart0And12(x, y);
    } else if x < 12 && y < 36 {
      Apart0And24(x, y);
    } else if x < 12 {
      Apart0And36(x, y);
    } else if x < 24 && y < 24 {
      Apart12And12(x, y);
    } else if x < 24 && y < 36 {
      Apart12And24(x, y);
    } else if x < 24 {
      Apart12And36(x, y);
    } else if x < 36 && y < 36 {
      Apart24And24(x, y);
    } else if x < 36 {
      Apart24And36(x, y);
    } else {
      Apart36And36(x, y);
    }
  }

  /** The legacy name of the authority header, an alias in the lookup table. */
  const HOST_LEGACY := "host"

  lemma {:induction false} HostIsNoKey(x: Inline)
    ensures KeyOf(x) != HOST_LEGACY
  {
    hide KeyOf;
    FourLetters(x);
  }

  lemma {:induction false} FourLetters(x: Inline)
    ensures |KeyOf(x)| == 4 ==> KeyOf(x)[0] != 'h'
  {
  }
}
