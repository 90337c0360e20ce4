/** The bundle container: a 120-byte header, the manifest, the payload and the signature. */
module BundleContainer {
  import opened Words
  import opened Slices
  import opened Status

  const MAGIC: seq<byte> := [0x57, 0x44, 0x43, 0x42, 0x4e, 0x44, 0x4c, 0x00]
  const CONTAINER_VERSION: u16 := 1
  const HEADER_LEN: u16 := 120
  const SHA_BYTES := 32
  const SIG_NONE: u16 := 0
  const SIG_HMAC_SHA256_DEV: u16 := 1
  const SIG_ED25519: u16 := 2
  const ED25519_SIGNATURE_BYTES := 64

  datatype Header = Header(
    version: u16, headerLen: u16, manifestLen: u32, payloadLen: u32,
    manifestSha: seq<byte>, payloadSha: seq<byte>, alg: u16, signatureLen: u16)

  datatype Parsed = Parsed(
    header: Header, manifestOffset: u32, payloadOffset: u32, signatureOffset: u32, total: u32)

  function HalfAt(b: seq<byte>, p: nat): u16
    requires p + 2 <= |b|
  {
    b[p] + 0x100 * (b[p + 1] as int)
  }

  /** The fields that the first 120 bytes hold. */
  function Fields(b: seq<byte>): Header
    requires |b| >= 120
  {
    Header(HalfAt(b, 8), HalfAt(b, 10), WordAt(b, 12), WordAt(b, 16), b[20..52], b[52..84],
           HalfAt(b, 84), HalfAt(b, 86))
  }

  /** The signature length that each algorithm asks for; unknown algorithms ask for none. */
  predicate SignatureLenOk(h: Header) {
    && (h.alg == SIG_HMAC_SHA256_DEV ==> h.signatureLen == SHA_BYTES)
    && (h.alg == SIG_ED25519 ==> h.signatureLen == ED25519_SIGNATURE_BYTES)
    && (h.alg == SIG_NONE ==> h.signatureLen == 0)
  }

  /** The length that the header announces, in unbounded arithmetic. */
  function TrueTotal(h: Header): nat {
    h.headerLen + h.manifestLen + h.payloadLen + h.signatureLen
  }

  /** The checks on the fields of a buffer of this length. */
  function CheckFields(h: Header, n: nat): Result<Parsed> {
    if h.version != CONTAINER_VERSION || h.headerLen != HEADER_LEN then Err(ERR_UNSUPPORTED_ABI)
    else if h.manifestLen == 0 || h.payloadLen == 0 || !SignatureLenOk(h) then Err(ERR_BAD_LENGTH)
    else if TrueTotal(h) > MAX_U32 then Err(ERR_BAD_LENGTH)
    else if n != 120 && TrueTotal(h) > n then Err(ERR_BAD_LENGTH)
    else Ok(Parsed(h, 120, 120 + h.manifestLen, 120 + h.manifestLen + h.payloadLen, TrueTotal(h)))
  }

  /** What parsing a header must give, with no machine arithmetic in it. */
  function Parse(b: seq<byte>): Result<Parsed> {
    if |b| < 120 then Err(ERR_BAD_LENGTH)
    else if b[..8] != MAGIC then Err(ERR_BAD_ENCODING)
    else CheckFields(Fields(b), |b|)
  }

  function Wrap(x: nat): u32 { x % 0x1_0000_0000 }

  /** A sum of two words wrapped exactly when it is smaller than the first of them. */
  lemma WrapNoticed(a: u32, b: u32)
    ensures Wrap(a + b) < a <==> a + b > MAX_U32
    ensures a + b <= MAX_U32 ==> Wrap(a + b) == a + b
  {
  }

  /** `wdc_bundle_parse_header`: 32-bit sums, with the overflow checks afterwards. */
  method ParseHeader(bundle: seq<byte>) returns (r: Result<Parsed>)
    requires |bundle| <= MAX_U32
    ensures r == Parse(bundle)
  {
    hide HalfAt, WordAt, Wrap;
    if |bundle| < 120 { return Err(ERR_BAD_LENGTH); }
    if bundle[..8] != MAGIC { return Err(ERR_BAD_ENCODING); }
    var version, headerLen := HalfAt(bundle, 8), HalfAt(bundle, 10);
    var manifestLen, payloadLen := WordAt(bundle, 12), WordAt(bundle, 16);
    var alg, signatureLen := HalfAt(bundle, 84), HalfAt(bundle, 86);
    var h := Header(version, headerLen, manifestLen, payloadLen, bundle[20..52], bundle[52..84], alg, signatureLen);
    if version != CONTAINER_VERSION || headerLen != HEADER_LEN { return Err(ERR_UNSUPPORTED_ABI); }
    if manifestLen == 0 || payloadLen == 0 { return Err(ERR_BAD_LENGTH); }
    if alg == SIG_HMAC_SHA256_DEV && signatureLen != SHA_BYTES { return Err(ERR_BAD_LENGTH); }
    if alg == SIG_ED25519 && signatureLen != ED25519_SIGNATURE_BYTES { return Err(ERR_BAD_LENGTH); }
    if alg == SIG_NONE && signatureLen != 0 { return Err(ERR_BAD_LENGTH); }
    var manifestOffset: u32 := headerLen;
    var payloadOffset := Wrap(manifestOffset + manifestLen);
    var signatureOffset := Wrap(payloadOffset + payloadLen);
    var total := Wrap(signatureOffset + signatureLen);
    WrapNoticed(manifestOffset, manifestLen);
    WrapNoticed(payloadOffset, payloadLen);
    WrapNoticed(signatureOffset, signatureLen);
    if payloadOffset < manifestOffset || signatureOffset < payloadOffset || total < signatureOffset {
      return Err(ERR_BAD_LENGTH);
    }
    if |bundle| != 120 && total > |bundle| { return Err(ERR_BAD_LENGTH); }
    r := Ok(Parsed(h, manifestOffset, payloadOffset, signatureOffset, total));
  }

  /** The length check that `wdc_bundle_verify` adds. */
  function VerifyLayout(b: seq<byte>): Result<Parsed> {
    match Parse(b)
    case Err(status) => Err(status)
    case Ok(p) => if p.total != |b| then Err(ERR_BAD_LENGTH) else Ok(p)
  }

  /** A bare header is accepted although the rest is missing; only the verifier's check refuses it. */
  lemma BareHeader(b: seq<byte>)
    requires |b| == 120 && Parse(b).Ok?
    ensures Parse(b).value.total > |b| && VerifyLayout(b) == Err(ERR_BAD_LENGTH)
  {
    hide HalfAt, WordOf;
  }

  /** An accepted bundle is tiled exactly by its four parts. */
  lemma Tiled(b: seq<byte>)
    requires VerifyLayout(b).Ok?
    ensures var p := VerifyLayout(b).value;
            && 120 == p.manifestOffset < p.payloadOffset < p.signatureOffset <= p.total == |b|
            && b == b[..p.manifestOffset] + b[p.manifestOffset..p.payloadOffset]
                    + b[p.payloadOffset..p.signatureOffset] + b[p.signatureOffset..]
            && p.payloadOffset - p.manifestOffset == p.header.manifestLen
            && p.signatureOffset - p.payloadOffset == p.header.payloadLen
            && |b| - p.signatureOffset == p.header.signatureLen
  {
    hide HalfAt, WordOf;
  }

  // ---- packing

  function Le16(x: u16): seq<byte> {
    [x % 0x100, x / 0x100]
  }

  function Le32(x: u32): seq<byte> {
    [ByteOf(x, 0), ByteOf(x, 1), ByteOf(x, 2), ByteOf(x, 3)]
  }

  type Digest = d: seq<byte> | |d| == 32 witness seq(32, _ => 0)

  function Zeros(n: nat): seq<byte> {
    seq(n, _ => 0)
  }

  datatype Bundle = Bundle(
    manifest: seq<byte>, payload: seq<byte>, alg: u16, signature: seq<byte>, manifestSha: Digest, payloadSha: Digest)

  predicate Packable(x: Bundle) {
    |x.manifest| <= MAX_U32 && |x.payload| <= MAX_U32 && |x.signature| < 0x1_0000
  }

  function PackedHeader(x: Bundle): (b: seq<byte>)
    requires Packable(x)
    ensures |b| == 120
  {
    MAGIC + (Le16(CONTAINER_VERSION) + (Le16(HEADER_LEN) + (Le32(|x.manifest|) + (Le32(|x.payload|)
    + (x.manifestSha + (x.payloadSha + (Le16(x.alg) + (Le16(|x.signature|) + Zeros(32)))))))))
  }

  function Packed(x: Bundle): seq<byte>
    requires Packable(x)
  {
    PackedHeader(x) + (x.manifest + (x.payload + x.signature))
  }

  lemma HalfBack(b: seq<byte>, p: nat, x: u16)
    requires At(b, p, Le16(x))
    ensures HalfAt(b, p) == x
  {
    assert b[p] == b[p..p + 2][0] && b[p + 1] == b[p..p + 2][1];
  }

  lemma WordBack(b: seq<byte>, p: nat, x: u32)
    requires At(b, p, Le32(x))
    ensures WordAt(b, p) == x
  {
    assert b[p] == b[p..p + 4][0] && b[p + 1] == b[p..p + 4][1];
    assert b[p + 2] == b[p..p + 4][2] && b[p + 3] == b[p..p + 4][3];
    WordOfItsBytes(x);
  }

  lemma FrontFields(b: seq<byte>, x: Bundle, rest: seq<byte>)
    requires Packable(x)
    requires At(b, 0, MAGIC + (Le16(CONTAINER_VERSION) + (Le16(HEADER_LEN)
                      + (Le32(|x.manifest|) + (Le32(|x.payload|) + rest)))))
    ensures b[..8] == MAGIC && HalfAt(b, 8) == CONTAINER_VERSION && HalfAt(b, 10) == HEADER_LEN
    ensures WordAt(b, 12) == |x.manifest| && WordAt(b, 16) == |x.payload|
    ensures At(b, 20, rest)
  {
    var lens := Le32(|x.manifest|) + (Le32(|x.payload|) + rest);
    AtSplit(b, 0, MAGIC, Le16(CONTAINER_VERSION) + (Le16(HEADER_LEN) + lens));
    AtSplit(b, 8, Le16(CONTAINER_VERSION), Le16(HEADER_LEN) + lens);
    AtSplit(b, 10, Le16(HEADER_LEN), lens);
    AtSplit(b, 12, Le32(|x.manifest|), Le32(|x.payload|) + rest);
    AtSplit(b, 16, Le32(|x.payload|), rest);
    assert b[..8] == b[0..8];
    hide At, HalfAt, WordAt, ByteOf;
    HalfBack(b, 8, CONTAINER_VERSION);
    HalfBack(b, 10, HEADER_LEN);
    WordBack(b, 12, |x.manifest|);
    WordBack(b, 16, |x.payload|);
  }

  lemma BackFields(b: seq<byte>, x: Bundle, rest: seq<byte>)
    requires Packable(x)
    requires At(b, 20, x.manifestSha + (x.payloadSha + (Le16(x.alg) + (Le16(|x.signature|) + rest))))
    ensures |b| >= 88 && b[20..52] == x.manifestSha && b[52..84] == x.payloadSha
    ensures HalfAt(b, 84) == x.alg && HalfAt(b, 86) == |x.signature|
  {
    var tail := Le16(x.alg) + (Le16(|x.signature|) + rest);
    AtSplit(b, 20, x.manifestSha, x.payloadSha + tail);
    AtSplit(b, 52, x.payloadSha, tail);
    AtSplit(b, 84, Le16(x.alg), Le16(|x.signature|) + rest);
    AtSplit(b, 86, Le16(|x.signature|), rest);
    hide HalfAt;
    HalfBack(b, 84, x.alg);
    HalfBack(b, 86, |x.signature|);
  }

  lemma PackedFields(x: Bundle)
    requires Packable(x)
    ensures var b := Packed(x);
            && |b| == 120 + |x.manifest| + |x.payload| + |x.signature| && b[..8] == MAGIC
            && Fields(b) == Header(CONTAINER_VERSION, HEADER_LEN, |x.manifest|, |x.payload|,
                                   x.manifestSha, x.payloadSha, x.alg, |x.signature|)
  {
    var b, h := Packed(x), PackedHeader(x);
    assert At(b, 0, h) by { assert b[0..120] == h; }
    var rest := x.manifestSha + (x.payloadSha + (Le16(x.alg) + (Le16(|x.signature|) + Zeros(32))));
    hide At, Packed, PackedHeader, Le16, Le32, HalfAt, WordAt, Zeros;
    FrontFields(b, x, rest);
    BackFields(b, x, Zeros(32));
  }

  /** A packed bundle is accepted exactly when its parts are lawful, and then it yields those parts. */
  lemma ParsePacked(x: Bundle)
    requires Packable(x)
    ensures var b := Packed(x);
            VerifyLayout(b).Ok? <==>
            && x.manifest != [] && x.payload != [] && |b| <= MAX_U32
            && (x.alg == SIG_HMAC_SHA256_DEV ==> |x.signature| == 32)
            && (x.alg == SIG_ED25519 ==> |x.signature| == 64)
            && (x.alg == SIG_NONE ==> x.signature == [])
    ensures var b := Packed(x);
            VerifyLayout(b).Ok? ==>
              var p := VerifyLayout(b).value;
              && b[p.manifestOffset..p.payloadOffset] == x.manifest
              && b[p.payloadOffset..p.signatureOffset] == x.payload
              && b[p.signatureOffset..] == x.signature
              && p.header.alg == x.alg
              && p.header.manifestSha == x.manifestSha && p.header.payloadSha == x.payloadSha
  {
    PackedFields(x);
    PackedParts(x);
    hide Packed, Fields;
  }

  lemma PackedParts(x: Bundle)
    requires Packable(x)
    ensures var b, m := Packed(x), 120 + |x.manifest|;
            && m + |x.payload| <= |b|
            && b[120..m] == x.manifest && b[m..m + |x.payload|] == x.payload && b[m + |x.payload|..] == x.signature
  {
    hide PackedHeader;
  }

  lemma HeaderFields(b: seq<byte>, n: nat)
    requires 120 <= n <= |b|
    ensures Fields(b[..n]) == Fields(b) && b[..n][..8] == b[..8]
  {
    assert b[..n][20..52] == b[20..52] && b[..n][52..84] == b[52..84];
    hide WordOf;
  }

  /** The header of a packed bundle parses on its own exactly when the whole bundle is accepted. */
  lemma HeaderOfPacked(x: Bundle)
    requires Packable(x)
    ensures Parse(PackedHeader(x)).Ok? <==> VerifyLayout(Packed(x)).Ok?
    ensures VerifyLayout(Packed(x)).Ok? ==> Parse(PackedHeader(x)) == VerifyLayout(Packed(x))
  {
    assert Packed(x)[..120] == PackedHeader(x);
    hide PackedHeader, Packed, Fields, SignatureLenOk;
    PackedFields(x);
    HeaderFields(Packed(x), 120);
  }

  /** A bundle that was cut off is refused wherever it was cut, except right behind its header. */
  lemma CutRefused(x: Bundle, n: nat)
    requires Packable(x) && VerifyLayout(Packed(x)).Ok? && n < |Packed(x)|
    ensures Parse(Packed(x)[..n]).Ok? <==> n == 120
    ensures n != 120 ==> Parse(Packed(x)[..n]) == Err(ERR_BAD_LENGTH)
  {
    hide PackedHeader, Packed, Fields, SignatureLenOk;
    PackedFields(x);
    if n >= 120 {
      HeaderFields(Packed(x), n);
    }
  }

  /** With bytes behind it, it is parsed as before; only the verifier's length check refuses it. */
  lemma ExtendedParses(x: Bundle, extra: seq<byte>)
    requires Packable(x) && VerifyLayout(Packed(x)).Ok? && extra != []
    ensures Parse(Packed(x) + extra) == VerifyLayout(Packed(x))
    ensures VerifyLayout(Packed(x) + extra) == Err(ERR_BAD_LENGTH)
  {
    hide PackedHeader, Packed, Fields, SignatureLenOk;
    var b := Packed(x) + extra;
    PackedFields(x);
    assert b[..|Packed(x)|] == Packed(x);
    HeaderFields(b, |Packed(x)|);
  }

  /** What has another magic, version or header length is refused for that. */
  lemma ForeignRefused(b: seq<byte>)
    requires |b| >= 120
    ensures b[..8] != [0x57, 0x44, 0x43, 0x42, 0x4e, 0x44, 0x4c, 0x00] <==> Parse(b) == Err(ERR_BAD_ENCODING)
    ensures b[..8] == [0x57, 0x44, 0x43, 0x42, 0x4e, 0x44, 0x4c, 0x00] && b[8..12] != [1, 0, 120, 0] <==>
              Parse(b) == Err(ERR_UNSUPPORTED_ABI)
  {
    assert b[8..12] == [b[8], b[9], b[10], b[11]];
    hide WordOf, SignatureLenOk;
  }

  /** One byte of manifest, one byte of payload, no signature. */
  function Smallest(): Bundle {
    Bundle([0], [0], SIG_NONE, [], Zeros(32), Zeros(32))
  }

  /** 120 bytes that are parsed although 122 are announced. */
  lemma SmallestBareHeader()
    ensures var b := PackedHeader(Smallest());
            |b| == 120 && Parse(b).Ok? && Parse(b).value.total == 122 && VerifyLayout(b) == Err(ERR_BAD_LENGTH)
  {
    hide PackedHeader, Packed, Parse, VerifyLayout, Zeros;
    HeaderOfPacked(Smallest());
    ParsePacked(Smallest());
    PackedFields(Smallest());
    BareHeader(PackedHeader(Smallest()));
    Tiled(Packed(Smallest()));
  }

  // ---- the host tool's reader

  function ToolUnpack(b: seq<byte>): Result<Parsed>
    requires |b| <= MAX_U32
  {
    if |b| < 120 || b[..8] != MAGIC then Err(ERR_BAD_ENCODING)
    else
      var h := Fields(b);
      if h.version != CONTAINER_VERSION || h.headerLen != HEADER_LEN then Err(ERR_BAD_ENCODING)
      else if TrueTotal(h) != |b| then Err(ERR_BAD_ENCODING)
      else Ok(Parsed(h, 120, 120 + h.manifestLen, 120 + h.manifestLen + h.payloadLen, TrueTotal(h)))
  }

  /** The tool takes exactly the firmware's bundles and, besides, those with empty parts or an odd signature length. */
  lemma ToolAccepts(b: seq<byte>)
    requires |b| <= MAX_U32
    ensures VerifyLayout(b).Ok? <==>
            && ToolUnpack(b).Ok?
            && Fields(b).manifestLen != 0 && Fields(b).payloadLen != 0 && SignatureLenOk(Fields(b))
    ensures VerifyLayout(b).Ok? ==> ToolUnpack(b) == VerifyLayout(b)
  {
    hide Fields, SignatureLenOk;
  }
}
