/**
  Opening a signature database (src/sigdb/sigdb_load.c): the checks that make every later
  access safe, and the views.
*/
module SigdbLoad {
  import opened Wrappers
  import opened Bits
  import opened DbFormat

  datatype OpenError = TooSmall | BadMagic | BadVersion | BadSection | PoolNotTerminated

  /** An opened database: the mapping and its header. */
  datatype Db = Db(base: seq<byte>, hdr: Header)

  /** `span_ok`, with its overflow check. */
  predicate SpanOk(size: nat, off: nat, count: nat, elem: nat) {
    if off > size then false
    else if elem > 0 && count > (size - off) / elem then false
    else off + count * elem <= size
  }

  /** The check says what it should, for elements of any size. */
  lemma SpanOkIff(size: nat, off: nat, count: nat, elem: nat)
    ensures SpanOk(size, off, count, elem) <==> off + count * elem <= size
  {
    if off <= size && elem > 0 && count > (size - off) / elem {
      var q, r := (size - off) / elem, (size - off) % elem;
      assert size - off == q * elem + r;
      Gap(q, count, elem);
    } else if off > size {
      assert count * elem >= 0;
    }
  }

  /** What an accepted file guarantees. */
  ghost predicate Sound(db: Db) {
    && |db.base| >= HEADER_SIZE && db.hdr == ReadHeader(db.base)
    && db.hdr.magic == MAGIC && db.hdr.version == VERSION
    && db.hdr.appOff + APP_SIZE * db.hdr.appCount <= |db.base|
    && db.hdr.domainOff + DOMAIN_SIZE * db.hdr.domainCount <= |db.base|
    && db.hdr.cidrOff + CIDR_SIZE * db.hdr.cidrCount <= |db.base|
    && db.hdr.payloadOff + PAYLOAD_SIZE * db.hdr.payloadCount <= |db.base|
    && db.hdr.poolSize > 0
    && db.hdr.poolOff + db.hdr.poolSize <= |db.base|
    && db.base[db.hdr.poolOff + db.hdr.poolSize - 1] == 0
  }

  /** `ngfw_sigdb_open` on the bytes of a file: it accepts exactly the sound ones. */
  method Open(file: seq<byte>) returns (r: Result<Db, OpenError>)
    ensures r.Ok? ==> r.value.base == file && Sound(r.value)
    ensures r.Err? ==> !(|file| >= HEADER_SIZE && Sound(Db(file, ReadHeader(file))))
    ensures r.Err? && r.error != TooSmall ==> |file| >= HEADER_SIZE
    ensures r == Err(TooSmall) <==> |file| < HEADER_SIZE
    ensures r == Err(BadMagic) <==> |file| >= HEADER_SIZE && ReadHeader(file).magic != MAGIC
    ensures r == Err(BadVersion) <==>
      |file| >= HEADER_SIZE && ReadHeader(file).magic == MAGIC && ReadHeader(file).version != 3
    ensures r == Err(PoolNotTerminated) ==>
      var h := ReadHeader(file);
      h.poolOff + h.poolSize <= |file| && (h.poolSize == 0 || file[h.poolOff + h.poolSize - 1] != 0)
  {
    hide ReadHeader, SpanOk;
    if |file| < HEADER_SIZE {
      return Err(TooSmall);
    }
    var hdr := ReadHeader(file);
    if hdr.magic != MAGIC {
      return Err(BadMagic);
    }
    if hdr.version != VERSION {
      return Err(BadVersion);
    }
    SpanOkIff(|file|, hdr.appOff, hdr.appCount, APP_SIZE);
    SpanOkIff(|file|, hdr.cidrOff, hdr.cidrCount, CIDR_SIZE);
    SpanOkIff(|file|, hdr.payloadOff, hdr.payloadCount, PAYLOAD_SIZE);
    SpanOkIff(|file|, hdr.domainOff, hdr.domainCount, DOMAIN_SIZE);
    SpanOkIff(|file|, hdr.poolOff, hdr.poolSize, 1);
    if !SpanOk(|file|, hdr.appOff, hdr.appCount, APP_SIZE) ||
       !SpanOk(|file|, hdr.cidrOff, hdr.cidrCount, CIDR_SIZE) ||
       !SpanOk(|file|, hdr.payloadOff, hdr.payloadCount, PAYLOAD_SIZE) ||
       !SpanOk(|file|, hdr.domainOff, hdr.domainCount, DOMAIN_SIZE) ||
       !SpanOk(|file|, hdr.poolOff, hdr.poolSize, 1) {
      return Err(BadSection);
    }
    if hdr.poolSize == 0 || file[hdr.poolOff + hdr.poolSize - 1] != 0 {
      return Err(PoolNotTerminated);
    }
    return Ok(Db(file, hdr));
  }

  // ------------------------------------------------------------------ views

  function AppAt(db: Db, i: nat): (r: DbApp)
    requires Sound(db) && i < db.hdr.appCount
  {
    ReadApp(db.base, db.hdr.appOff + APP_SIZE * i)
  }

  function DomainAt(db: Db, i: nat): (r: DbDomain)
    requires Sound(db) && i < db.hdr.domainCount
  {
    ReadDomain(db.base, db.hdr.domainOff + DOMAIN_SIZE * i)
  }

  function CidrAt(db: Db, i: nat): (r: DbCidr)
    requires Sound(db) && i < db.hdr.cidrCount
  {
    ReadCidr(db.base, db.hdr.cidrOff + CIDR_SIZE * i)
  }

  function PayloadAt(db: Db, i: nat): (r: DbPayload)
    requires Sound(db) && i < db.hdr.payloadCount
  {
    ReadPayload(db.base, db.hdr.payloadOff + PAYLOAD_SIZE * i)
  }

  /** The C string that starts at `p`; it must end before `end`. */
  function CStr(b: seq<byte>, p: nat, end: nat): (s: seq<byte>)
    requires p < end <= |b| && b[end - 1] == 0
    ensures 0 !in s && p + |s| < end && b[p + |s|] == 0 && b[p..p + |s|] == s
    decreases end - p
  {
    if b[p] == 0 then [] else [b[p]] + CStr(b, p + 1, end)
  }

  /** A string of the pool: any offset inside the pool of a sound database has one. */
  function PoolString(db: Db, off: nat): (s: seq<byte>)
    requires Sound(db) && off < db.hdr.poolSize
    ensures 0 !in s
  {
    CStr(db.base, db.hdr.poolOff + off, db.hdr.poolOff + db.hdr.poolSize)
  }

  datatype AppName = Known(name: seq<byte>) | Corrupt | Unknown

  /** `ngfw_sigdb_app_name`: the name of the first row with this id. */
  method LookupAppName(db: Db, app: u32) returns (r: AppName)
    requires Sound(db)
    ensures r.Unknown? <==> forall i :: 0 <= i < db.hdr.appCount ==> AppAt(db, i).app != app
    ensures !r.Unknown? ==>
      exists i: nat :: i < db.hdr.appCount && AppAt(db, i).app == app &&
        (forall j: nat :: j < i ==> AppAt(db, j).app != app) &&
        r == (if AppAt(db, i).nameOff < db.hdr.poolSize
              then Known(PoolString(db, AppAt(db, i).nameOff)) else Corrupt)
  {
    hide Sound, ReadApp, PoolString;
    for i := 0 to db.hdr.appCount
      invariant forall j :: 0 <= j < i ==> AppAt(db, j).app != app
    {
      if AppAt(db, i).app == app {
        var off := AppAt(db, i).nameOff;
        return if off < db.hdr.poolSize then Known(PoolString(db, off)) else Corrupt;
      }
    }
    return Unknown;
  }

  /** The string at an offset where a NUL-free text and a NUL are stored. */
  lemma {:induction false} CStrReads(b: seq<byte>, p: nat, end: nat, s: seq<byte>)
    requires p < end <= |b| && b[end - 1] == 0
    requires 0 !in s && p + |s| < end && b[p..p + |s|] == s && b[p + |s|] == 0
    ensures CStr(b, p, end) == s
    decreases |s|
  {
    if s != [] {
      assert b[p] == s[0];
      assert b[p + 1..p + |s|] == s[1..];
      CStrReads(b, p + 1, end, s[1..]);
    }
  }
}
