/**
  The rows of the signature database as bytes: `struct.pack` in tools/sigc.py on one
  side, the C structs of include/ngfw/sigdb.h on the other. All fields are little-endian.
*/
module DbFormat {
  import opened Bits
  import opened Layout

  type u64 = x: int | 0 <= x < 0x1_0000_0000_0000_0000

  function Le16(n: u16): (b: seq<byte>)
    ensures |b| == 2
  {
    [n % 0x100, n / 0x100]
  }

  function Le32(n: u32): (b: seq<byte>)
    ensures |b| == 4
  {
    [n % 0x100, n / 0x100 % 0x100, n / 0x1_0000 % 0x100, n / 0x100_0000]
  }

  function Le64(n: u64): (b: seq<byte>)
    ensures |b| == 8
  {
    Le32(n % 0x1_0000_0000) + Le32(n / 0x1_0000_0000)
  }

  function RdLe16(b: seq<byte>, p: nat): (r: u16)
    requires p + 2 <= |b|
  {
    b[p] as int + b[p + 1] as int * 0x100
  }

  function RdLe32(b: seq<byte>, p: nat): (r: u32)
    requires p + 4 <= |b|
  {
    b[p] as int + b[p + 1] as int * 0x100 + b[p + 2] as int * 0x1_0000 + b[p + 3] as int * 0x100_0000
  }

  function RdLe64(b: seq<byte>, p: nat): (r: u64)
    requires p + 8 <= |b|
  {
    RdLe32(b, p) + RdLe32(b, p + 4) * 0x1_0000_0000
  }

  lemma AtLe16(b: seq<byte>, p: nat, n: u16)
    requires At(b, p, Le16(n))
    ensures p + 2 <= |b| && RdLe16(b, p) == n
  {
    assert b[p] == b[p..p + 2][0] && b[p + 1] == b[p..p + 2][1];
  }

  lemma AtLe32(b: seq<byte>, p: nat, n: u32)
    requires At(b, p, Le32(n))
    ensures p + 4 <= |b| && RdLe32(b, p) == n
  {
    var s := b[p..p + 4];
    assert b[p] == s[0] && b[p + 1] == s[1] && b[p + 2] == s[2] && b[p + 3] == s[3];
    Digits32(n);
  }

  lemma Digits32(n: u32)
    ensures n % 0x100 + n / 0x100 % 0x100 * 0x100 + n / 0x1_0000 % 0x100 * 0x1_0000 + n / 0x100_0000 * 0x100_0000 == n
  {
    assert n / 0x1_0000 == n / 0x100 / 0x100;
    assert n / 0x100_0000 == n / 0x1_0000 / 0x100;
  }

  lemma AtLe64(b: seq<byte>, p: nat, n: u64)
    requires At(b, p, Le64(n))
    ensures p + 8 <= |b| && RdLe64(b, p) == n
  {
    hide Le32, RdLe32;
    AtConcat(b, p, Le32(n % 0x1_0000_0000), Le32(n / 0x1_0000_0000));
    AtLe32(b, p, n % 0x1_0000_0000);
    AtLe32(b, p + 4, n / 0x1_0000_0000);
  }

  // ------------------------------------------------------------------ rows

  type Bytes16 = b: seq<byte> | |b| == 16 witness seq(16, _ => 0)
  type Quad = b: seq<byte> | |b| == 4 witness [0, 0, 0, 0]

  datatype DbApp = DbApp(app: u32, nameOff: u32, category: u16, lic: byte)
  datatype DbDomain = DbDomain(nameOff: u32, app: u32, matchType: byte, conf: byte, tier: byte, lic: byte)
  datatype DbCidr = DbCidr(addr: Bytes16, app: u32, prefixLen: byte, af: byte, tier: byte, conf: byte, lic: byte)
  datatype DbPayload = DbPayload(value: Quad, mask: Quad, app: u32, tier: byte, conf: byte, lic: byte)

  /** Whether a domain rule is for its name alone or for all names below it too. */
  const DOM_SUFFIX: byte := 0
  const DOM_EXACT: byte := 1

  const APP_SIZE := 12
  const DOMAIN_SIZE := 12
  const CIDR_SIZE := 28
  const PAYLOAD_SIZE := 16
  const HEADER_SIZE := 56

  function PackApp(r: DbApp): (b: seq<byte>)
    ensures |b| == APP_SIZE
  {
    Le32(r.app) + (Le32(r.nameOff) + (Le16(r.category) + [r.lic, 0]))
  }

  function PackDomain(r: DbDomain): (b: seq<byte>)
    ensures |b| == DOMAIN_SIZE
  {
    Le32(r.nameOff) + (Le32(r.app) + [r.matchType, r.conf, r.tier, r.lic])
  }

  function PackCidr(r: DbCidr): (b: seq<byte>)
    ensures |b| == CIDR_SIZE
  {
    r.addr + (Le32(r.app) + [r.prefixLen, r.af, r.tier, r.conf, r.lic, 0, 0, 0])
  }

  function PackPayload(r: DbPayload): (b: seq<byte>)
    ensures |b| == PAYLOAD_SIZE
  {
    r.value + (r.mask + (Le32(r.app) + [r.tier, r.conf, r.lic, 0]))
  }

  function ReadApp(b: seq<byte>, p: nat): (r: DbApp)
    requires p + APP_SIZE <= |b|
  {
    DbApp(RdLe32(b, p), RdLe32(b, p + 4), RdLe16(b, p + 8), b[p + 10])
  }

  function ReadDomain(b: seq<byte>, p: nat): (r: DbDomain)
    requires p + DOMAIN_SIZE <= |b|
  {
    DbDomain(RdLe32(b, p), RdLe32(b, p + 4), b[p + 8], b[p + 9], b[p + 10], b[p + 11])
  }

  function ReadCidr(b: seq<byte>, p: nat): (r: DbCidr)
    requires p + CIDR_SIZE <= |b|
  {
    DbCidr(b[p..p + 16], RdLe32(b, p + 16), b[p + 20], b[p + 21], b[p + 22], b[p + 23], b[p + 24])
  }

  function ReadPayload(b: seq<byte>, p: nat): (r: DbPayload)
    requires p + PAYLOAD_SIZE <= |b|
  {
    DbPayload(b[p..p + 4], b[p + 4..p + 8], RdLe32(b, p + 8), b[p + 12], b[p + 13], b[p + 14])
  }

  lemma AtBytes(b: seq<byte>, p: nat, x: seq<byte>, i: nat)
    requires At(b, p, x) && i < |x|
    ensures p + i < |b| && b[p + i] == x[i]
  {
    assert b[p..p + |x|][i] == b[p + i];
  }

  lemma AppReadsBack(b: seq<byte>, p: nat, r: DbApp)
    requires At(b, p, PackApp(r))
    ensures ReadApp(b, p) == r
  {
    hide Le32, Le16, RdLe32, RdLe16;
    AtConcat(b, p, Le32(r.app), Le32(r.nameOff) + (Le16(r.category) + [r.lic, 0]));
    AtConcat(b, p + 4, Le32(r.nameOff), Le16(r.category) + [r.lic, 0]);
    AtConcat(b, p + 8, Le16(r.category), [r.lic, 0]);
    AtLe32(b, p, r.app);
    AtLe32(b, p + 4, r.nameOff);
    AtLe16(b, p + 8, r.category);
    AtBytes(b, p + 10, [r.lic, 0], 0);
  }

  lemma DomainReadsBack(b: seq<byte>, p: nat, r: DbDomain)
    requires At(b, p, PackDomain(r))
    ensures ReadDomain(b, p) == r
  {
    hide Le32, RdLe32;
    var tail := [r.matchType, r.conf, r.tier, r.lic];
    AtConcat(b, p, Le32(r.nameOff), Le32(r.app) + tail);
    AtConcat(b, p + 4, Le32(r.app), tail);
    AtLe32(b, p, r.nameOff);
    AtLe32(b, p + 4, r.app);
    AtBytes(b, p + 8, tail, 0);
    AtBytes(b, p + 8, tail, 1);
    AtBytes(b, p + 8, tail, 2);
    AtBytes(b, p + 8, tail, 3);
  }

  lemma CidrReadsBack(b: seq<byte>, p: nat, r: DbCidr)
    requires At(b, p, PackCidr(r))
    ensures ReadCidr(b, p) == r
  {
    hide Le32, RdLe32;
    var tail := [r.prefixLen, r.af, r.tier, r.conf, r.lic, 0, 0, 0];
    AtConcat(b, p, r.addr, Le32(r.app) + tail);
    AtConcat(b, p + 16, Le32(r.app), tail);
    AtLe32(b, p + 16, r.app);
    AtBytes(b, p + 20, tail, 0);
    AtBytes(b, p + 20, tail, 1);
    AtBytes(b, p + 20, tail, 2);
    AtBytes(b, p + 20, tail, 3);
    AtBytes(b, p + 20, tail, 4);
  }

  lemma PayloadReadsBack(b: seq<byte>, p: nat, r: DbPayload)
    requires At(b, p, PackPayload(r))
    ensures ReadPayload(b, p) == r
  {
    hide Le32, RdLe32;
    var tail := [r.tier, r.conf, r.lic, 0];
    AtConcat(b, p, r.value, r.mask + (Le32(r.app) + tail));
    AtConcat(b, p + 4, r.mask, Le32(r.app) + tail);
    AtConcat(b, p + 8, Le32(r.app), tail);
    AtLe32(b, p + 8, r.app);
    AtBytes(b, p + 12, tail, 0);
    AtBytes(b, p + 12, tail, 1);
    AtBytes(b, p + 12, tail, 2);
  }

  // ------------------------------------------------------------------ where the fields are

  /** Bytes as a little-endian number. */
  function LeValue(b: seq<byte>): (n: nat) {
    if |b| == 0 then 0 else b[0] as int + 0x100 * LeValue(b[1..])
  }

  lemma LeFour(a: byte, b: byte, c: byte, d: byte)
    ensures LeValue([a, b, c, d]) == a as int + 0x100 * b as int + 0x1_0000 * c as int + 0x100_0000 * d as int
    ensures LeValue([a, b]) == a as int + 0x100 * b as int
  {
    LeOneMore(d, []);
    LeOneMore(c, [d]);
    LeOneMore(b, [c, d]);
    LeOneMore(a, [b, c, d]);
    LeOneMore(b, []);
    LeOneMore(a, [b]);
    assert [a] + [b, c, d] == [a, b, c, d] && [b] + [c, d] == [b, c, d] && [c] + [d] == [c, d] && [a] + [b] == [a, b];
  }

  lemma LeOneMore(a: byte, rest: seq<byte>)
    ensures LeValue([a] + rest) == a as int + 0x100 * LeValue(rest)
    ensures LeValue([a]) == a as int
  {
    assert ([a] + rest)[1..] == rest && [a][1..] == rest[..0];
  }

  lemma LeValues(n: u32)
    ensures LeValue(Le32(n)) == n
    ensures n < 0x1_0000 ==> LeValue(Le16(n)) == n
  {
    hide LeValue;
    var b := Le32(n);
    LeFour(b[0], b[1], b[2], b[3]);
    Digits32(n);
    if n < 0x1_0000 {
      LeFour(n % 0x100, n / 0x100, 0, 0);
    }
  }

  lemma LeReads(b: seq<byte>, p: nat)
    requires p + 4 <= |b|
    ensures LeValue(b[p..p + 4]) == RdLe32(b, p)
  {
    hide LeValue;
    LeFour(b[p], b[p + 1], b[p + 2], b[p + 3]);
    assert b[p..p + 4] == [b[p], b[p + 1], b[p + 2], b[p + 3]];
  }

  /** The C structs of include/ngfw/sigdb.h, field by field, at their offsets. */
  lemma AppLayout(r: DbApp)
    ensures var b := PackApp(r);
      LeValue(b[0..4]) == r.app && LeValue(b[4..8]) == r.nameOff && LeValue(b[8..10]) == r.category && b[10] == r.lic
  {
    hide Le32, Le16, LeValue;
    LeValues(r.app);
    LeValues(r.nameOff);
    LeValues(r.category);
    var b := PackApp(r);
    assert b[0..4] == Le32(r.app) && b[4..8] == Le32(r.nameOff) && b[8..10] == Le16(r.category);
  }

  lemma DomainLayout(r: DbDomain)
    ensures var b := PackDomain(r);
      && LeValue(b[0..4]) == r.nameOff && LeValue(b[4..8]) == r.app
      && b[8] == r.matchType && b[9] == r.conf && b[10] == r.tier && b[11] == r.lic
  {
    hide Le32, LeValue;
    LeValues(r.nameOff);
    LeValues(r.app);
    var b := PackDomain(r);
    assert b[0..4] == Le32(r.nameOff) && b[4..8] == Le32(r.app);
  }

  lemma CidrLayout(r: DbCidr)
    ensures var b := PackCidr(r);
      && b[0..16] == r.addr && LeValue(b[16..20]) == r.app
      && b[20] == r.prefixLen && b[21] == r.af && b[22] == r.tier && b[23] == r.conf && b[24] == r.lic
  {
    hide Le32, LeValue;
    LeValues(r.app);
    var b := PackCidr(r);
    assert b[0..16] == r.addr && b[16..20] == Le32(r.app);
  }

  lemma PayloadLayout(r: DbPayload)
    ensures var b := PackPayload(r);
      && b[0..4] == r.value && b[4..8] == r.mask && LeValue(b[8..12]) == r.app
      && b[12] == r.tier && b[13] == r.conf && b[14] == r.lic
  {
    hide Le32, LeValue;
    LeValues(r.app);
    var b := PackPayload(r);
    assert b[0..4] == r.value && b[4..8] == r.mask && b[8..12] == Le32(r.app);
  }

  // ------------------------------------------------------------------ tables of rows

  function Blob<R>(rows: seq<R>, pack: R -> seq<byte>): (r: seq<byte>)
  {
    if |rows| == 0 then [] else Blob(rows[..|rows| - 1], pack) + pack(rows[|rows| - 1])
  }

  lemma {:induction false} BlobLength<R>(rows: seq<R>, pack: R -> seq<byte>, size: nat)
    requires forall r :: r in rows ==> |pack(r)| == size
    ensures |Blob(rows, pack)| == size * |rows|
  {
    if |rows| > 0 {
      BlobLength(rows[..|rows| - 1], pack, size);
    }
  }

  /** Row `i` of a table that lies in a buffer. */
  lemma {:induction false} BlobRow<R>(b: seq<byte>, p: nat, rows: seq<R>, pack: R -> seq<byte>, size: nat, i: nat)
    requires forall r :: r in rows ==> |pack(r)| == size
    requires At(b, p, Blob(rows, pack)) && i < |rows|
    ensures At(b, p + size * i, pack(rows[i]))
    decreases |rows|
  {
    var n := |rows| - 1;
    var front := rows[..n];
    AtConcat(b, p, Blob(front, pack), pack(rows[n]));
    BlobLength(front, pack, size);
    if i < n {
      BlobRow(b, p, front, pack, size, i);
    }
  }

  // ------------------------------------------------------------------ header

  const MAGIC: u32 := 0x4457474E
  const VERSION: u32 := 3

  datatype Header = Header(
    magic: u32, version: u32, appCount: u32, domainCount: u32, poolSize: u32,
    appOff: u32, domainOff: u32, poolOff: u32, builtAt: u64,
    cidrCount: u32, cidrOff: u32, payloadCount: u32, payloadOff: u32)

  function PackHeader(h: Header): (b: seq<byte>)
    ensures |b| == HEADER_SIZE
  {
    Le32(h.magic) + (Le32(h.version) + (Le32(h.appCount) + (Le32(h.domainCount) +
    (Le32(h.poolSize) + (Le32(h.appOff) + (Le32(h.domainOff) + (Le32(h.poolOff) +
    (Le64(h.builtAt) + (Le32(h.cidrCount) + (Le32(h.cidrOff) + (Le32(h.payloadCount) + Le32(h.payloadOff))))))))))))
  }

  function ReadHeader(b: seq<byte>): (r: Header)
    requires HEADER_SIZE <= |b|
  {
    Header(RdLe32(b, 0), RdLe32(b, 4), RdLe32(b, 8), RdLe32(b, 12), RdLe32(b, 16),
           RdLe32(b, 20), RdLe32(b, 24), RdLe32(b, 28), RdLe64(b, 32),
           RdLe32(b, 40), RdLe32(b, 44), RdLe32(b, 48), RdLe32(b, 52))
  }

  lemma HeaderReadsBack(b: seq<byte>, h: Header)
    requires At(b, 0, PackHeader(h))
    ensures |b| >= HEADER_SIZE && ReadHeader(b) == h
  {
    hide Le32, Le64, RdLe32, RdLe64;
    var s12 := Le32(h.payloadOff);
    var s11 := Le32(h.payloadCount) + s12;
    var s10 := Le32(h.cidrOff) + s11;
    var s9 := Le32(h.cidrCount) + s10;
    var s8 := Le64(h.builtAt) + s9;
    var s7 := Le32(h.poolOff) + s8;
    var s6 := Le32(h.domainOff) + s7;
    var s5 := Le32(h.appOff) + s6;
    var s4 := Le32(h.poolSize) + s5;
    var s3 := Le32(h.domainCount) + s4;
    var s2 := Le32(h.appCount) + s3;
    var s1 := Le32(h.version) + s2;
    FieldThen(b, 0, h.magic, s1);
    FieldThen(b, 4, h.version, s2);
    FieldThen(b, 8, h.appCount, s3);
    FieldThen(b, 12, h.domainCount, s4);
    FieldThen(b, 16, h.poolSize, s5);
    FieldThen(b, 20, h.appOff, s6);
    FieldThen(b, 24, h.domainOff, s7);
    FieldThen(b, 28, h.poolOff, s8);
    AtConcat(b, 32, Le64(h.builtAt), s9);
    AtLe64(b, 32, h.builtAt);
    FieldThen(b, 40, h.cidrCount, s10);
    FieldThen(b, 44, h.cidrOff, s11);
    FieldThen(b, 48, h.payloadCount, s12);
    AtLe32(b, 52, h.payloadOff);
  }

  lemma FieldThen(b: seq<byte>, p: nat, n: u32, rest: seq<byte>)
    requires At(b, p, Le32(n) + rest)
    ensures p + 4 <= |b| && RdLe32(b, p) == n && At(b, p + 4, rest)
  {
    hide Le32, RdLe32;
    AtConcat(b, p, Le32(n), rest);
    AtLe32(b, p, n);
  }

  /** `ngfw_sigdb_header_t`, all but the time of the build. */
  lemma HeaderLayout(h: Header)
    ensures var b := PackHeader(h);
      && LeValue(b[0..4]) == h.magic && LeValue(b[4..8]) == h.version
      && LeValue(b[8..12]) == h.appCount && LeValue(b[12..16]) == h.domainCount
      && LeValue(b[16..20]) == h.poolSize && LeValue(b[20..24]) == h.appOff
      && LeValue(b[24..28]) == h.domainOff && LeValue(b[28..32]) == h.poolOff
      && LeValue(b[40..44]) == h.cidrCount && LeValue(b[44..48]) == h.cidrOff
      && LeValue(b[48..52]) == h.payloadCount && LeValue(b[52..56]) == h.payloadOff
  {
    hide PackHeader, RdLe32, LeValue, RdLe64;
    var b := PackHeader(h);
    AtWhole(b);
    HeaderReadsBack(b, h);
    LeReads(b, 0);
    LeReads(b, 4);
    LeReads(b, 8);
    LeReads(b, 12);
    LeReads(b, 16);
    LeReads(b, 20);
    LeReads(b, 24);
    LeReads(b, 28);
    LeReads(b, 40);
    LeReads(b, 44);
    LeReads(b, 48);
    LeReads(b, 52);
  }

  /** Every file begins with the letters of its kind and the version. */
  lemma MagicLetters()
    ensures Le32(MAGIC) + Le32(VERSION) == [0x4E, 0x47, 0x57, 0x44, 3, 0, 0, 0]
  {
  }
}
