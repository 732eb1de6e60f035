/**
 The server name of a TLS ClientHello (section 4.1.2 of RFC 8446, section 3 of RFC 6066),
 found by walking over the first bytes a client sends.
 */
module Sniff {
  import opened Options

  type Byte = n: nat | n < 256

  /** Two bytes in network order. */
  function Word16(b: seq<Byte>, p: nat): (n: nat)
    requires p + 2 <= |b|
    ensures n < 65536
  {
    b[p] as int * 256 + b[p + 1]
  }

  /** Go's strings.ToLower(string(b)), whatever it does to letters outside ASCII. */
  type Lowering = seq<Byte> -> string

  // ---- what the parser looks for --------------------------------------------

  /** The extension block: where it begins and where its length field says it ends. */
  datatype Block = Block(start: nat, declaredEnd: nat)

  /** The position after a field of one length byte, if that byte is there. */
  function Skip8(b: seq<Byte>, p: nat): Option<nat> {
    if |b| < p + 1 then None else Some(p + 1 + b[p])
  }

  function Skip16(b: seq<Byte>, p: nat): Option<nat> {
    if |b| < p + 2 then None else Some(p + 2 + Word16(b, p))
  }

  /** Session id, cipher suites, compression methods, then the extension block. */
  function Fields(b: seq<Byte>, p: nat): (r: Option<Block>)
    ensures r.Some? ==> p + 2 <= r.value.start <= |b| && r.value.start <= r.value.declaredEnd
  {
    match Skip8(b, p)
    case None => None
    case Some(p1) =>
      match Skip16(b, p1)
      case None => None
      case Some(p2) =>
        match Skip8(b, p2)
        case None => None
        case Some(p3) => if |b| < p3 + 2 then None else Some(Block(p3 + 2, p3 + 2 + Word16(b, p3)))
  }

  const FIELDS_AT := 5 + 4 + 2 + 32

  function Header(b: seq<Byte>): (r: Option<Block>)
    ensures r.Some? ==> r.value.start <= |b| && r.value.start <= r.value.declaredEnd
  {
    if |b| < 5 || b[0] != 0x16 then None
    else if |b| < 9 || b[5] != 0x01 then None
    else Fields(b, FIELDS_AT)
  }

  /** The host name of a server_name extension whose first entry is one. */
  function Name(lower: Lowering, e: seq<Byte>): string {
    if |e| < 5 || e[2] != 0x00 then ""
    else
      var n := Word16(e, 3);
      if 5 + n > |e| then "" else lower(e[5..5 + n])
  }

  function Min(a: nat, b: nat): nat {
    if a <= b then a else b
  }

  /** The first server_name extension between p and end, provided every one before it fits. */
  function Scan(lower: Lowering, b: seq<Byte>, p: nat, end: nat): string
    requires p <= end <= |b|
    decreases end - p
  {
    if p + 4 > end then ""
    else
      var q := p + 4 + Word16(b, p + 2);
      if q > end then ""
      else if Word16(b, p) == 0 then Name(lower, b[p + 4..q])
      else Scan(lower, b, q, end)
  }

  function Sni(lower: Lowering, b: seq<Byte>): string {
    match Header(b)
    case None => ""
    case Some(k) => Scan(lower, b, k.start, Min(k.declaredEnd, |b|))
  }

  // ---- the parser -----------------------------------------------------------

  /** The walk up to the extension block. */
  method FindExtensions(b: seq<Byte>) returns (r: Option<Block>)
    ensures r == Header(b)
  {
    if |b| < 5 || b[0] != 0x16 {
      return None;
    }
    var p: nat := 5;
    if |b| < p + 4 || b[p] != 0x01 {
      return None;
    }
    p := p + 4;
    p := p + 2;
    p := p + 32;
    if |b| < p + 1 {
      return None;
    }
    p := p + 1 + b[p];
    if |b| < p + 2 {
      return None;
    }
    p := p + 2 + (b[p] as int * 256 + b[p + 1]);
    if |b| < p + 1 {
      return None;
    }
    p := p + 1 + b[p];
    if |b| < p + 2 {
      return None;
    }
    var extEnd := p + 2 + (b[p] as int * 256 + b[p + 1]);
    p := p + 2;
    return Some(Block(p, extEnd));
  }

  method ParseTlsSni(lower: Lowering, b: seq<Byte>) returns (name: string)
    ensures name == Sni(lower, b)
  {
    hide Name, Header;
    var r := FindExtensions(b);
    if r == None {
      return "";
    }
    var p, extEnd := r.value.start, r.value.declaredEnd;
    if extEnd > |b| {
      extEnd := |b|;
    }
    while p + 4 <= extEnd
      invariant p <= extEnd <= |b|
      invariant Sni(lower, b) == Scan(lower, b, p, extEnd)
      decreases extEnd - p
    {
      var etype := b[p] as int * 256 + b[p + 1];
      var elen := b[p + 2] as int * 256 + b[p + 3];
      p := p + 4;
      if p + elen > extEnd {
        return "";
      }
      if etype == 0x0000 {
        name := ServerName(lower, b[p..p + elen]);
        return name;
      }
      p := p + elen;
    }
    return "";
  }

  method ServerName(lower: Lowering, e: seq<Byte>) returns (name: string)
    ensures name == Name(lower, e)
  {
    if |e| < 5 || e[2] != 0x00 {
      return "";
    }
    var nameLen := e[3] as int * 256 + e[4];
    if 5 + nameLen > |e| {
      return "";
    }
    return lower(e[5..5 + nameLen]);
  }

  // ---- a short first read ---------------------------------------------------

  /** Where the server_name extension that Scan answers from ends. */
  function ScanEnd(b: seq<Byte>, p: nat, end: nat): (e: nat)
    requires p <= end <= |b|
    ensures p <= e <= end
    decreases end - p
  {
    if p + 4 > end then p
    else
      var q := p + 4 + Word16(b, p + 2);
      if q > end then p else if Word16(b, p) == 0 then q else ScanEnd(b, q, end)
  }

  function SniEnd(b: seq<Byte>): (e: nat)
    ensures e <= |b|
  {
    match Header(b)
    case None => 0
    case Some(k) => ScanEnd(b, k.start, Min(k.declaredEnd, |b|))
  }

  lemma Word16Prefix(b: seq<Byte>, k: nat, p: nat)
    requires k <= |b| && p + 2 <= k
    ensures Word16(b[..k], p) == Word16(b, p)
  {
  }

  lemma {:induction false} ScanPrefix(lower: Lowering, b: seq<Byte>, k: nat, p: nat, end: nat)
    requires k <= |b| && p <= end <= |b| && p <= k
    ensures Scan(lower, b[..k], p, Min(end, k)) ==
      if Scan(lower, b, p, end) != "" && k >= ScanEnd(b, p, end) then Scan(lower, b, p, end) else ""
    decreases end - p
  {
    hide Name, Word16;
    var b' := b[..k];
    if p + 4 <= Min(end, k) {
      Word16Prefix(b, k, p);
      Word16Prefix(b, k, p + 2);
      var q := p + 4 + Word16(b, p + 2);
      if q <= Min(end, k) {
        if Word16(b, p) == 0 {
          assert b'[p + 4..q] == b[p + 4..q];
        } else {
          ScanPrefix(lower, b, k, q, end);
        }
      }
    }
  }

  lemma FieldsPrefix(b: seq<Byte>, k: nat, p: nat)
    requires k <= |b|
    ensures Fields(b[..k], p) ==
      if Fields(b, p).Some? && k >= Fields(b, p).value.start then Fields(b, p) else None
  {
    forall q: nat | q + 2 <= k ensures Word16(b[..k], q) == Word16(b, q) {
      Word16Prefix(b, k, q);
    }
  }

  lemma HeaderPrefix(b: seq<Byte>, k: nat)
    requires k <= |b|
    ensures Header(b[..k]) ==
      if Header(b).Some? && k >= Header(b).value.start then Header(b) else None
  {
    hide Fields;
    FieldsPrefix(b, k, FIELDS_AT);
  }

  /**
   A short first read never yields a wrong name: on the first k bytes the parser answers
   with the name of the whole message from the moment they hold its server_name extension,
   and with nothing before.
   */
  lemma {:induction false} PrefixAnswers(lower: Lowering, b: seq<Byte>, k: nat)
    requires k <= |b|
    ensures Sni(lower, b[..k]) == if Sni(lower, b) != "" && k >= SniEnd(b) then Sni(lower, b) else ""
  {
    hide Scan, ScanEnd, Header;
    HeaderPrefix(b, k);
    if Header(b).Some? {
      var h := Header(b).value;
      if k >= h.start {
        ScanPrefix(lower, b, k, h.start, Min(h.declaredEnd, |b|));
      }
    }
  }

  // ---- the message the parser inverts ----------------------------------------

  datatype Extension = Extension(kind: nat, data: seq<Byte>)

  /** A ClientHello that carries a server_name extension, fields in wire order. */
  datatype ClientHello = ClientHello(
    recordVersion: seq<Byte>, clientVersion: seq<Byte>, random: seq<Byte>,
    sessionId: seq<Byte>, cipherSuites: seq<Byte>, compression: seq<Byte>,
    before: seq<Extension>, host: seq<Byte>, otherNames: seq<Byte>, after: seq<Byte>)

  function U16(n: nat): (b: seq<Byte>)
    requires n < 65536
    ensures |b| == 2
  {
    [n / 256, n % 256]
  }

  function U24(n: nat): (b: seq<Byte>)
    requires n < 0x100_0000
    ensures |b| == 3
  {
    [n / 65536, n / 256 % 256, n % 256]
  }

  function Vec8(x: seq<Byte>): seq<Byte>
    requires |x| < 256
  {
    [|x|] + x
  }

  function Vec16(x: seq<Byte>): seq<Byte>
    requires |x| < 65536
  {
    U16(|x|) + x
  }

  function Extensions(xs: seq<Extension>): seq<Byte>
    requires forall x :: x in xs ==> x.kind < 65536 && |x.data| < 65536
  {
    if xs == [] then [] else U16(xs[0].kind) + Vec16(xs[0].data) + Extensions(xs[1..])
  }

  /** One host_name entry, then whatever other entries the list holds. */
  function ServerNameData(host: seq<Byte>, otherNames: seq<Byte>): seq<Byte>
    requires |host| + |otherNames| + 3 < 65536
  {
    U16(3 + |host| + |otherNames|) + ([0x00] + (Vec16(host) + otherNames))
  }

  predicate Encodable(h: ClientHello) {
    && |h.recordVersion| == 2 && |h.clientVersion| == 2 && |h.random| == 32
    && |h.sessionId| < 256 && |h.cipherSuites| < 65536 && |h.compression| < 256
    && (forall x :: x in h.before ==> 0 < x.kind < 65536 && |x.data| < 65536)
    && |h.host| + |h.otherNames| + 5 < 65536
    && |Extensions(h.before)| + |h.host| + |h.otherNames| + |h.after| + 9 < 65536
  }

  function ExtensionBlock(h: ClientHello): (b: seq<Byte>)
    requires Encodable(h)
    ensures |b| < 65536
  {
    Extensions(h.before) + (U16(0) + Vec16(ServerNameData(h.host, h.otherNames)) + h.after)
  }

  /** Session id, cipher suites, compression methods and extensions. */
  function Tail(h: ClientHello): (b: seq<Byte>)
    requires Encodable(h)
    ensures |b| < 0x3_0000
  {
    Vec8(h.sessionId) + (Vec16(h.cipherSuites) + (Vec8(h.compression) + Vec16(ExtensionBlock(h))))
  }

  /** The message in one TLS record. */
  function Serialize(h: ClientHello): seq<Byte>
    requires Encodable(h) && |Tail(h)| + 38 < 65536
  {
    var n := |Tail(h)| + 34;
    [0x16] + h.recordVersion + U16(n + 4) + [0x01] + U24(n) + h.clientVersion + h.random + Tail(h)
  }

  // ---- reading a concatenation -----------------------------------------------

  /** The bytes x stand at position p. */
  predicate At(b: seq<Byte>, p: nat, x: seq<Byte>) {
    p + |x| <= |b| && b[p..p + |x|] == x
  }

  lemma AtSplit(b: seq<Byte>, p: nat, x: seq<Byte>, y: seq<Byte>)
    requires At(b, p, x + y)
    ensures At(b, p, x) && At(b, p + |x|, y)
  {
    var n := p + |x|;
    assert b[p..n] == b[p..n + |y|][..|x|];
    assert b[n..n + |y|] == b[p..n + |y|][|x|..];
  }

  lemma AtIndex(b: seq<Byte>, p: nat, x: seq<Byte>, i: nat)
    requires At(b, p, x) && i < |x|
    ensures b[p + i] == x[i]
  {
    assert b[p..p + |x|][i] == b[p + i];
  }

  lemma AtWord(b: seq<Byte>, p: nat, n: nat)
    requires n < 65536 && At(b, p, U16(n))
    ensures Word16(b, p) == n
  {
    AtIndex(b, p, U16(n), 0);
    AtIndex(b, p, U16(n), 1);
  }

  lemma AtVec8(b: seq<Byte>, p: nat, x: seq<Byte>, rest: seq<Byte>)
    requires |x| < 256 && At(b, p, Vec8(x) + rest)
    ensures Skip8(b, p) == Some(p + 1 + |x|) && At(b, p + 1 + |x|, rest)
  {
    AtSplit(b, p, Vec8(x), rest);
    AtIndex(b, p, Vec8(x), 0);
  }

  lemma AtVec16(b: seq<Byte>, p: nat, x: seq<Byte>, rest: seq<Byte>)
    requires |x| < 65536 && At(b, p, Vec16(x) + rest)
    ensures Skip16(b, p) == Some(p + 2 + |x|) && At(b, p + 2 + |x|, rest)
  {
    AtSplit(b, p, Vec16(x), rest);
    AtSplit(b, p, U16(|x|), x);
    AtWord(b, p, |x|);
  }

  // ---- round trip ------------------------------------------------------------

  lemma TailFields(b: seq<Byte>, p: nat, h: ClientHello)
    requires Encodable(h) && At(b, p, Tail(h))
    ensures var f := Fields(b, p);
      && f.Some? && f.value.declaredEnd == f.value.start + |ExtensionBlock(h)|
      && At(b, f.value.start, ExtensionBlock(h))
  {
    hide Vec8, Vec16, U16, Skip8, Skip16, At, ExtensionBlock, Word16;
    var x := ExtensionBlock(h);
    var t3 := Vec16(x);
    var t2 := Vec8(h.compression) + t3;
    var t1 := Vec16(h.cipherSuites) + t2;
    AtVec8(b, p, h.sessionId, t1);
    var p1 := p + 1 + |h.sessionId|;
    AtVec16(b, p1, h.cipherSuites, t2);
    var p2 := p1 + 2 + |h.cipherSuites|;
    AtVec8(b, p2, h.compression, t3);
    BlockHere(b, p2 + 1 + |h.compression|, x);
  }

  lemma BlockHere(b: seq<Byte>, p: nat, x: seq<Byte>)
    requires |x| < 65536 && At(b, p, Vec16(x))
    ensures p + 2 <= |b| && Word16(b, p) == |x| && At(b, p + 2, x)
  {
    AtSplit(b, p, U16(|x|), x);
    AtWord(b, p, |x|);
  }

  lemma ExtensionsUnfold(xs: seq<Extension>, rest: seq<Byte>)
    requires xs != [] && forall x :: x in xs ==> x.kind < 65536 && |x.data| < 65536
    ensures Extensions(xs) + rest ==
      U16(xs[0].kind) + (U16(|xs[0].data|) + (xs[0].data + (Extensions(xs[1..]) + rest)))
    ensures |Extensions(xs)| == 4 + |xs[0].data| + |Extensions(xs[1..])|
  {
  }

  lemma {:induction false} ScanSkipsOthers(lower: Lowering, b: seq<Byte>, p: nat, end: nat, xs: seq<Extension>,
                                           rest: seq<Byte>)
    requires forall x :: x in xs ==> 0 < x.kind < 65536 && |x.data| < 65536
    requires At(b, p, Extensions(xs) + rest) && p + |Extensions(xs)| + |rest| <= end <= |b|
    ensures var q := p + |Extensions(xs)|;
      At(b, q, rest) && Scan(lower, b, p, end) == Scan(lower, b, q, end)
    decreases |xs|
  {
    hide Name, Word16, U16, At;
    if xs == [] {
      assert Extensions(xs) + rest == rest;
    } else {
      var x, more := xs[0], Extensions(xs[1..]) + rest;
      ExtensionsUnfold(xs, rest);
      AtSplit(b, p, U16(x.kind), U16(|x.data|) + (x.data + more));
      AtWord(b, p, x.kind);
      AtSplit(b, p + 2, U16(|x.data|), x.data + more);
      AtWord(b, p + 2, |x.data|);
      AtSplit(b, p + 4, x.data, more);
      ScanSkipsOthers(lower, b, p + 4 + |x.data|, end, xs[1..], rest);
    }
  }

  lemma NameOfData(lower: Lowering, host: seq<Byte>, otherNames: seq<Byte>)
    requires |host| + |otherNames| + 3 < 65536
    ensures Name(lower, ServerNameData(host, otherNames)) == lower(host)
  {
    var e := ServerNameData(host, otherNames);
    assert At(e, 0, e);
    var entry := [0x00] + (Vec16(host) + otherNames);
    AtSplit(e, 0, U16(3 + |host| + |otherNames|), entry);
    AtSplit(e, 2, [0x00], Vec16(host) + otherNames);
    AtIndex(e, 2, [0x00], 0);
    AtSplit(e, 3, Vec16(host), otherNames);
    BlockHere(e, 3, host);
  }

  lemma ServerNameFound(lower: Lowering, b: seq<Byte>, p: nat, end: nat, data: seq<Byte>, after: seq<Byte>)
    requires |data| < 65536 && At(b, p, U16(0) + Vec16(data) + after)
    requires p + 4 + |data| <= end <= |b|
    ensures Scan(lower, b, p, end) == Name(lower, data)
  {
    hide Name;
    AtSplit(b, p, U16(0) + Vec16(data), after);
    AtSplit(b, p, U16(0), Vec16(data));
    AtWord(b, p, 0);
    BlockHere(b, p + 2, data);
  }

  lemma SerializedHeader(h: ClientHello, trailing: seq<Byte>)
    requires Encodable(h) && |Tail(h)| + 38 < 65536
    ensures var b := Serialize(h) + trailing;
      && |b| >= FIELDS_AT && b[0] == 0x16 && b[5] == 0x01
      && At(b, FIELDS_AT, Tail(h))
  {
    hide Tail, U16, U24;
    var b, t := Serialize(h) + trailing, Tail(h);
    var n := |t| + 34;
    var front := [0x16] + h.recordVersion + U16(n + 4) + [0x01] + U24(n) + h.clientVersion + h.random;
    assert Serialize(h) == front + t;
    assert b[43..43 + |t|] == t;
  }

  /**
   The parser inverts the serializer: for every ClientHello, whatever its session id,
   suites, compression methods and earlier extensions, and whatever follows the host name,
   the parser answers with exactly the host name in lower case.
   */
  lemma {:induction false} SniRoundTrip(lower: Lowering, h: ClientHello, trailing: seq<Byte>)
    requires Encodable(h) && |Tail(h)| + 38 < 65536
    ensures Sni(lower, Serialize(h) + trailing) == lower(h.host)
  {
    hide Scan, Name, Fields, Tail, At, Serialize, Extensions, ServerNameData;
    var b := Serialize(h) + trailing;
    SerializedHeader(h, trailing);
    TailFields(b, FIELDS_AT, h);
    var k := Fields(b, FIELDS_AT).value;
    AtFits(b, k.start, ExtensionBlock(h));
    var data := ServerNameData(h.host, h.otherNames);
    var rest := U16(0) + Vec16(data) + h.after;
    ScanSkipsOthers(lower, b, k.start, k.declaredEnd, h.before, rest);
    var q := k.start + |Extensions(h.before)|;
    ServerNameFound(lower, b, q, k.declaredEnd, data, h.after);
    NameOfData(lower, h.host, h.otherNames);
  }

  const ZEROS: seq<Byte> := seq(32, _ => 0)

  /** A ClientHello byte by byte: no session id, one suite, one other extension, the name "a.b". */
  const HELLO: seq<Byte> :=
    [0x16, 3, 1, 0, 65, 0x01, 0, 0, 61, 3, 3] + ZEROS +
    [0, 0, 2, 0x13, 0x01, 1, 0, 0, 18, 0, 23, 0, 2, 9, 9, 0, 0, 0, 8, 0, 6, 0, 0, 3, 0x61, 0x2e, 0x62]

  lemma {:induction false} HelloHasName(lower: Lowering)
    ensures Sni(lower, HELLO) == lower([0x61, 0x2e, 0x62])
  {
    hide Scan, Name;
    var b := HELLO;
    assert |b| == 70;
    assert Header(b) == Some(Block(52, 70));
    AtOther(lower, b);
  }

  lemma AtOther(lower: Lowering, b: seq<Byte>)
    requires b == HELLO
    ensures Scan(lower, b, 52, 70) == lower([0x61, 0x2e, 0x62])
  {
    assert |b| == 70;
    assert Word16(b, 52) == 23 && Word16(b, 54) == 2;
    assert Word16(b, 58) == 0 && Word16(b, 60) == 8;
    assert Scan(lower, b, 52, 70) == Scan(lower, b, 58, 70);
    assert b[62..70] == [0, 6, 0, 0, 3, 0x61, 0x2e, 0x62];
    assert b[62..70][5..8] == [0x61, 0x2e, 0x62];
  }

  // ---- what has no name ----------------------------------------------------------

  /** Anything but a handshake record that starts with a ClientHello has no server name. */
  lemma NoHelloNoName(lower: Lowering, b: seq<Byte>)
    requires |b| < 9 || b[0] != 0x16 || b[5] != 0x01
    ensures Sni(lower, b) == ""
  {
  }

  /**
   The first entry of the server_name extension decides: the answer is the name of its data,
   and nothing if that entry is of another type than host_name.
   */
  lemma {:induction false} FirstEntryDecides(lower: Lowering, b: seq<Byte>, before: seq<Extension>, data: seq<Byte>,
                                             after: seq<Byte>)
    requires Header(b).Some? && |data| < 65536
    requires forall x :: x in before ==> 0 < x.kind < 65536 && |x.data| < 65536
    requires var k, rest := Header(b).value, U16(0) + Vec16(data) + after;
      && At(b, k.start, Extensions(before) + rest)
      && k.start + |Extensions(before)| + |rest| <= k.declaredEnd
    ensures Sni(lower, b) == Name(lower, data)
    ensures |data| >= 3 && data[2] != 0x00 ==> Sni(lower, b) == ""
  {
    hide Scan, Extensions, Header, At;
    var k, rest := Header(b).value, U16(0) + Vec16(data) + after;
    var end := Min(k.declaredEnd, |b|);
    AtFits(b, k.start, Extensions(before) + rest);
    ScanSkipsOthers(lower, b, k.start, end, before, rest);
    ServerNameFound(lower, b, k.start + |Extensions(before)|, end, data, after);
  }

  lemma AtFits(b: seq<Byte>, p: nat, x: seq<Byte>)
    requires At(b, p, x)
    ensures p + |x| <= |b|
  {
  }
}
