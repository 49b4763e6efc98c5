/**
 The data types of the application IPC and their encodings (applib/dtn_types_xdr.c). Each encoder
 lists its fields in the order of the source; each decoder reads them back in that order.
 */
module DtnTypes {
  import opened Bytes
  import opened IpcDefs
  import opened Xdr

  // Sizes of applib/dtn_types.h. PATH_MAX is that of Linux; ARG_MAX falls back to _POSIX_ARG_MAX.
  const MAX_ENDPOINT_ID: nat := 256
  const MAX_PATH_LEN: nat := 4096
  const MAX_EXEC_LEN: nat := 4096
  const MAX_BUNDLE_MEM: nat := 50000
  const MAX_BLOCK_LEN: nat := 1024
  const MAX_BLOCKS: nat := 256

  type Eid = s: seq<Byte> | |s| == 256 witness seq(256, _ => 0)
  type BlockData = s: seq<Byte> | |s| <= 1024
  type Path = s: seq<Byte> | |s| <= 4096
  type Script = s: seq<Byte> | |s| <= 4096
  type Memory = s: seq<Byte> | |s| <= 50000

  datatype Timestamp = Timestamp(secs: U64, seqno: U64)

  datatype Block = Block(kind: U32, flags: U32, data: BlockData)

  type Blocks = b: seq<Block> | |b| <= 256

  datatype Spec = Spec(
    source: Eid, dest: Eid, replyto: Eid,
    priority: I32, dopts: I32, expiration: U32, creation: Timestamp, regid: U32,
    sequenceId: BlockData, obsoletesId: BlockData,
    blocks: Blocks, metadata: Blocks)

  datatype BundleId = BundleId(source: Eid, creation: Timestamp, fragOffset: U32, origLength: U32)

  datatype StatusReport = StatusReport(
    id: BundleId, reason: I32, flags: I32,
    receipt: Timestamp, custody: Timestamp, forwarding: Timestamp,
    delivery: Timestamp, deletion: Timestamp, ackByApp: Timestamp)

  datatype OptionalReport = NoReport | Report(report: StatusReport)

  datatype Payload = Payload(location: I32, filename: Path, buf: Memory, report: OptionalReport)

  datatype RegInfo = RegInfo(
    endpoint: Eid, regid: U32, flags: U32, replayFlags: U32, expiration: U32,
    passive: bool, token: U64, script: Script)

  lemma SpecIsMultiple(a: nat, b: nat, c: nat, d: nat)
    requires a % 4 == 0 && b % 4 == 0 && c % 4 == 0 && d % 4 == 0
    ensures (808 + a + b + c + d) % 4 == 0
  {
  }

  // ---------------------------------------------------------------- small types

  function PutTimestamp(t: Timestamp): (r: seq<Byte>)
    ensures |r| == 16
  {
    PutU64(t.secs) + PutU64(t.seqno)
  }

  function GetTimestamp(s: seq<Byte>): (p: Parse<Timestamp>)
    ensures p.Ok? ==> |s| == 16 + |p.rest|
  {
    var (secs, s1) :- GetU64(s);
    var (seqno, s2) :- GetU64(s1);
    Ok(Timestamp(secs, seqno), s2)
  }

  lemma TimestampRoundTrip(t: Timestamp, rest: seq<Byte>)
    ensures GetTimestamp(PutTimestamp(t) + rest) == Ok(t, rest)
  {
    Assoc(PutU64(t.secs), PutU64(t.seqno), rest);
    U64RoundTrip(t.secs, PutU64(t.seqno) + rest);
    U64RoundTrip(t.seqno, rest);
  }

  function PutEid(e: Eid): (r: seq<Byte>)
    ensures |r| == 256
  {
    PutOpaque(e)
  }

  function GetEid(s: seq<Byte>): (p: Parse<Eid>)
    ensures p.Ok? ==> |s| == 256 + |p.rest|
  {
    var (e, rest) :- GetOpaque(s, MAX_ENDPOINT_ID);
    Ok(e, rest)
  }

  lemma EidRoundTrip(e: Eid, rest: seq<Byte>)
    ensures GetEid(PutEid(e) + rest) == Ok(e, rest)
  {
    OpaqueRoundTrip(e, rest);
  }

  /** The value of a byte held in a signed char. */
  function SignedChar(b: Byte): (c: I32)
    ensures c % 0x100 == b
  {
    var n: int := b;
    if n >= 0x80 then n - 0x100 else n
  }

  /** A service tag is a vector of chars, each sent as an int of its own. */
  function PutChars(s: seq<Byte>): (r: seq<Byte>)
    ensures |r| == 4 * |s|
  {
    if s == [] then [] else PutI32(SignedChar(s[0])) + PutChars(s[1..])
  }

  function GetChars(s: seq<Byte>, n: nat): (p: Parse<seq<Byte>>)
    ensures p.Ok? ==> |p.value| == n && |s| == 4 * n + |p.rest|
  {
    if n == 0 then Ok([], s)
    else
      var (c, s1) :- GetI32(s);
      var (cs, s2) :- GetChars(s1, n - 1);
      Ok([c % 0x100] + cs, s2)
  }

  lemma {:induction false} CharsRoundTrip(s: seq<Byte>, rest: seq<Byte>)
    ensures GetChars(PutChars(s) + rest, |s|) == Ok(s, rest)
  {
    if s == [] {
      assert PutChars(s) + rest == rest;
    } else {
      var c := SignedChar(s[0]);
      Assoc(PutI32(c), PutChars(s[1..]), rest);
      I32RoundTrip(c, PutChars(s[1..]) + rest);
      CharsRoundTrip(s[1..], rest);
      assert [s[0]] + s[1..] == s;
    }
  }

  // ---------------------------------------------------------------- extension blocks

  function BlockSize(b: Block): (n: nat)
    ensures n % 4 == 0
  {
    8 + BytesSize(|b.data|)
  }

  function PutBlock(b: Block): (r: seq<Byte>)
    ensures |r| == BlockSize(b)
  {
    PutU32(b.kind) + (PutU32(b.flags) + PutBytes(b.data, MAX_BLOCK_LEN))
  }

  function GetBlock(s: seq<Byte>): (p: Parse<Block>)
    ensures p.Ok? ==> |s| == BlockSize(p.value) + |p.rest|
  {
    var (kind, s1) :- GetU32(s);
    var (flags, s2) :- GetU32(s1);
    var (data, s3) :- GetBytes(s2, MAX_BLOCK_LEN);
    Ok(Block(kind, flags, data), s3)
  }

  lemma BlockRoundTrip(b: Block, rest: seq<Byte>)
    ensures GetBlock(PutBlock(b) + rest) == Ok(b, rest)
  {
    var t2 := PutBytes(b.data, MAX_BLOCK_LEN);
    var t1 := PutU32(b.flags) + t2;
    Assoc(PutU32(b.kind), t1, rest);
    U32RoundTrip(b.kind, t1 + rest);
    Assoc(PutU32(b.flags), t2, rest);
    U32RoundTrip(b.flags, t2 + rest);
    BytesRoundTrip(b.data, MAX_BLOCK_LEN, rest);
  }

  function ElementsSize(bs: seq<Block>): (n: nat)
    ensures n % 4 == 0
  {
    if bs == [] then 0 else BlockSize(bs[0]) + ElementsSize(bs[1..])
  }

  function PutElements(bs: seq<Block>): (r: seq<Byte>)
    ensures |r| == ElementsSize(bs)
  {
    if bs == [] then [] else PutBlock(bs[0]) + PutElements(bs[1..])
  }

  function GetElements(s: seq<Byte>, n: nat): (p: Parse<seq<Block>>)
    ensures p.Ok? ==> |p.value| == n && |s| == ElementsSize(p.value) + |p.rest|
  {
    if n == 0 then Ok([], s)
    else
      var (b, s1) :- GetBlock(s);
      var (bs, s2) :- GetElements(s1, n - 1);
      assert ([b] + bs)[1..] == bs;
      Ok([b] + bs, s2)
  }

  lemma {:induction false} ElementsRoundTrip(bs: seq<Block>, rest: seq<Byte>)
    ensures GetElements(PutElements(bs) + rest, |bs|) == Ok(bs, rest)
  {
    if bs == [] {
      assert PutElements(bs) + rest == rest;
    } else {
      Assoc(PutBlock(bs[0]), PutElements(bs[1..]), rest);
      BlockRoundTrip(bs[0], PutElements(bs[1..]) + rest);
      ElementsRoundTrip(bs[1..], rest);
      assert [bs[0]] + bs[1..] == bs;
    }
  }

  function PutBlocks(bs: Blocks): (r: seq<Byte>)
    ensures |r| == 4 + ElementsSize(bs)
  {
    PutU32(|bs|) + PutElements(bs)
  }

  function GetBlocks(s: seq<Byte>): (p: Parse<Blocks>)
    ensures p.Ok? ==> |s| == 4 + ElementsSize(p.value) + |p.rest|
  {
    var (n, s1) :- GetU32(s);
    if n > MAX_BLOCKS then Fail
    else
      var (bs, s2) :- GetElements(s1, n);
      Ok(bs, s2)
  }

  lemma BlocksRoundTrip(bs: Blocks, rest: seq<Byte>)
    ensures GetBlocks(PutBlocks(bs) + rest) == Ok(bs, rest)
  {
    Assoc(PutU32(|bs|), PutElements(bs), rest);
    U32RoundTrip(|bs|, PutElements(bs) + rest);
    ElementsRoundTrip(bs, rest);
  }

  // ---------------------------------------------------------------- bundle spec

  /** The encoding falls into the addresses, the delivery options and the variable-length part. */
  function PutAddresses(v: Spec): (r: seq<Byte>)
    ensures |r| == 768
  {
    PutEid(v.source) + (PutEid(v.dest) + PutEid(v.replyto))
  }

  function PutOptions(v: Spec): (r: seq<Byte>)
    ensures |r| == 32
  {
    PutI32(v.priority) + (PutI32(v.dopts) + (PutU32(v.expiration) + (PutTimestamp(v.creation) + PutU32(v.regid))))
  }

  function PutVariable(v: Spec): (r: seq<Byte>)
    ensures |r| == BytesSize(|v.sequenceId|) + BytesSize(|v.obsoletesId|) + 8
                   + ElementsSize(v.blocks) + ElementsSize(v.metadata)
  {
    PutBytes(v.sequenceId, MAX_BLOCK_LEN)
    + (PutBytes(v.obsoletesId, MAX_BLOCK_LEN) + (PutBlocks(v.blocks) + PutBlocks(v.metadata)))
  }

  function SpecSize(v: Spec): (n: nat)
    ensures n % 4 == 0
  {
    var a, b := BytesSize(|v.sequenceId|), BytesSize(|v.obsoletesId|);
    var c, d := ElementsSize(v.blocks), ElementsSize(v.metadata);
    SpecIsMultiple(a, b, c, d);
    808 + a + b + c + d
  }

  function PutSpec(v: Spec): (r: seq<Byte>)
    ensures |r| == SpecSize(v)
  {
    PutAddresses(v) + (PutOptions(v) + PutVariable(v))
  }

  datatype Addresses = Addresses(source: Eid, dest: Eid, replyto: Eid)
  datatype Options = Options(priority: I32, dopts: I32, expiration: U32, creation: Timestamp, regid: U32)
  datatype Variable = Variable(sequenceId: BlockData, obsoletesId: BlockData, blocks: Blocks, metadata: Blocks)

  function GetAddresses(s: seq<Byte>): (p: Parse<Addresses>)
    ensures p.Ok? ==> |s| == 768 + |p.rest|
  {
    var (source, s1) :- GetEid(s);
    var (dest, s2) :- GetEid(s1);
    var (replyto, s3) :- GetEid(s2);
    Ok(Addresses(source, dest, replyto), s3)
  }

  function GetOptions(s: seq<Byte>): (p: Parse<Options>)
    ensures p.Ok? ==> |s| == 32 + |p.rest|
  {
    var (priority, s1) :- GetI32(s);
    var (dopts, s2) :- GetI32(s1);
    var (expiration, s3) :- GetU32(s2);
    var (creation, s4) :- GetTimestamp(s3);
    var (regid, s5) :- GetU32(s4);
    Ok(Options(priority, dopts, expiration, creation, regid), s5)
  }

  function GetVariable(s: seq<Byte>): (p: Parse<Variable>)
    ensures p.Ok? ==> |s| == BytesSize(|p.value.sequenceId|) + BytesSize(|p.value.obsoletesId|) + 8
                             + ElementsSize(p.value.blocks) + ElementsSize(p.value.metadata) + |p.rest|
  {
    var (sequenceId, s1) :- GetBytes(s, MAX_BLOCK_LEN);
    var (obsoletesId, s2) :- GetBytes(s1, MAX_BLOCK_LEN);
    var (blocks, s3) :- GetBlocks(s2);
    var (metadata, s4) :- GetBlocks(s3);
    Ok(Variable(sequenceId, obsoletesId, blocks, metadata), s4)
  }

  function GetSpec(s: seq<Byte>): (p: Parse<Spec>)
    ensures p.Ok? ==> |s| == SpecSize(p.value) + |p.rest|
  {
    var (a, s1) :- GetAddresses(s);
    var (o, s2) :- GetOptions(s1);
    var (x, s3) :- GetVariable(s2);
    Ok(Spec(a.source, a.dest, a.replyto, o.priority, o.dopts, o.expiration, o.creation, o.regid,
            x.sequenceId, x.obsoletesId, x.blocks, x.metadata), s3)
  }

  lemma AddressesRoundTrip(v: Spec, rest: seq<Byte>)
    ensures GetAddresses(PutAddresses(v) + rest) == Ok(Addresses(v.source, v.dest, v.replyto), rest)
  {
    var t2 := PutEid(v.replyto);
    var t1 := PutEid(v.dest) + t2;
    Assoc(PutEid(v.source), t1, rest);
    EidRoundTrip(v.source, t1 + rest);
    Assoc(PutEid(v.dest), t2, rest);
    EidRoundTrip(v.dest, t2 + rest);
    EidRoundTrip(v.replyto, rest);
  }

  lemma OptionsRoundTrip(v: Spec, rest: seq<Byte>)
    ensures GetOptions(PutOptions(v) + rest)
            == Ok(Options(v.priority, v.dopts, v.expiration, v.creation, v.regid), rest)
  {
    var t4 := PutU32(v.regid);
    var t3 := PutTimestamp(v.creation) + t4;
    var t2 := PutU32(v.expiration) + t3;
    var t1 := PutI32(v.dopts) + t2;
    Assoc(PutI32(v.priority), t1, rest);
    I32RoundTrip(v.priority, t1 + rest);
    Assoc(PutI32(v.dopts), t2, rest);
    I32RoundTrip(v.dopts, t2 + rest);
    Assoc(PutU32(v.expiration), t3, rest);
    U32RoundTrip(v.expiration, t3 + rest);
    Assoc(PutTimestamp(v.creation), t4, rest);
    TimestampRoundTrip(v.creation, t4 + rest);
    U32RoundTrip(v.regid, rest);
  }

  lemma VariableRoundTrip(v: Spec, rest: seq<Byte>)
    ensures GetVariable(PutVariable(v) + rest)
            == Ok(Variable(v.sequenceId, v.obsoletesId, v.blocks, v.metadata), rest)
  {
    var t3 := PutBlocks(v.metadata);
    var t2 := PutBlocks(v.blocks) + t3;
    var t1 := PutBytes(v.obsoletesId, MAX_BLOCK_LEN) + t2;
    Assoc(PutBytes(v.sequenceId, MAX_BLOCK_LEN), t1, rest);
    BytesRoundTrip(v.sequenceId, MAX_BLOCK_LEN, t1 + rest);
    Assoc(PutBytes(v.obsoletesId, MAX_BLOCK_LEN), t2, rest);
    BytesRoundTrip(v.obsoletesId, MAX_BLOCK_LEN, t2 + rest);
    Assoc(PutBlocks(v.blocks), t3, rest);
    BlocksRoundTrip(v.blocks, t3 + rest);
    BlocksRoundTrip(v.metadata, rest);
  }

  lemma SpecRoundTrip(v: Spec, rest: seq<Byte>)
    ensures GetSpec(PutSpec(v) + rest) == Ok(v, rest)
  {
    var t2 := PutVariable(v);
    var t1 := PutOptions(v) + t2;
    Assoc(PutAddresses(v), t1, rest);
    AddressesRoundTrip(v, t1 + rest);
    Assoc(PutOptions(v), t2, rest);
    OptionsRoundTrip(v, t2 + rest);
    VariableRoundTrip(v, rest);
  }

  // ---------------------------------------------------------------- bundle id, status report

  function PutBundleId(v: BundleId): (r: seq<Byte>)
    ensures |r| == 280
  {
    PutEid(v.source) + (PutTimestamp(v.creation) + (PutU32(v.fragOffset) + PutU32(v.origLength)))
  }

  function GetBundleId(s: seq<Byte>): (p: Parse<BundleId>)
    ensures p.Ok? ==> |s| == 280 + |p.rest|
  {
    var (source, s1) :- GetEid(s);
    var (creation, s2) :- GetTimestamp(s1);
    var (fragOffset, s3) :- GetU32(s2);
    var (origLength, s4) :- GetU32(s3);
    Ok(BundleId(source, creation, fragOffset, origLength), s4)
  }

  lemma BundleIdRoundTrip(v: BundleId, rest: seq<Byte>)
    ensures GetBundleId(PutBundleId(v) + rest) == Ok(v, rest)
  {
    var t3 := PutU32(v.origLength);
    var t2 := PutU32(v.fragOffset) + t3;
    var t1 := PutTimestamp(v.creation) + t2;
    Assoc(PutEid(v.source), t1, rest);
    EidRoundTrip(v.source, t1 + rest);
    Assoc(PutTimestamp(v.creation), t2, rest);
    TimestampRoundTrip(v.creation, t2 + rest);
    Assoc(PutU32(v.fragOffset), t3, rest);
    U32RoundTrip(v.fragOffset, t3 + rest);
    U32RoundTrip(v.origLength, rest);
  }

  /** The six times of a report, each with its place. */
  function PutTimes(v: StatusReport): (r: seq<Byte>)
    ensures |r| == 96
  {
    PutTimestamp(v.receipt) + (PutTimestamp(v.custody) + (PutTimestamp(v.forwarding)
    + (PutTimestamp(v.delivery) + (PutTimestamp(v.deletion) + PutTimestamp(v.ackByApp)))))
  }

  function PutReport(v: StatusReport): (r: seq<Byte>)
    ensures |r| == 384
  {
    PutBundleId(v.id) + (PutI32(v.reason) + (PutI32(v.flags) + PutTimes(v)))
  }

  function GetReport(s: seq<Byte>): (p: Parse<StatusReport>)
    ensures p.Ok? ==> |s| == 384 + |p.rest|
  {
    var (id, s1) :- GetBundleId(s);
    var (reason, s2) :- GetI32(s1);
    var (flags, s3) :- GetI32(s2);
    var (receipt, s4) :- GetTimestamp(s3);
    var (custody, s5) :- GetTimestamp(s4);
    var (forwarding, s6) :- GetTimestamp(s5);
    var (delivery, s7) :- GetTimestamp(s6);
    var (deletion, s8) :- GetTimestamp(s7);
    var (ackByApp, s9) :- GetTimestamp(s8);
    Ok(StatusReport(id, reason, flags, receipt, custody, forwarding, delivery, deletion, ackByApp), s9)
  }

  lemma ReportRoundTrip(v: StatusReport, rest: seq<Byte>)
    ensures GetReport(PutReport(v) + rest) == Ok(v, rest)
  {
    var t8 := PutTimestamp(v.ackByApp);
    var t7 := PutTimestamp(v.deletion) + t8;
    var t6 := PutTimestamp(v.delivery) + t7;
    var t5 := PutTimestamp(v.forwarding) + t6;
    var t4 := PutTimestamp(v.custody) + t5;
    var t3 := PutTimestamp(v.receipt) + t4;
    var t2 := PutI32(v.flags) + t3;
    var t1 := PutI32(v.reason) + t2;
    Assoc(PutBundleId(v.id), t1, rest);
    BundleIdRoundTrip(v.id, t1 + rest);
    Assoc(PutI32(v.reason), t2, rest);
    I32RoundTrip(v.reason, t2 + rest);
    Assoc(PutI32(v.flags), t3, rest);
    I32RoundTrip(v.flags, t3 + rest);
    Assoc(PutTimestamp(v.receipt), t4, rest);
    TimestampRoundTrip(v.receipt, t4 + rest);
    Assoc(PutTimestamp(v.custody), t5, rest);
    TimestampRoundTrip(v.custody, t5 + rest);
    Assoc(PutTimestamp(v.forwarding), t6, rest);
    TimestampRoundTrip(v.forwarding, t6 + rest);
    Assoc(PutTimestamp(v.delivery), t7, rest);
    TimestampRoundTrip(v.delivery, t7 + rest);
    Assoc(PutTimestamp(v.deletion), t8, rest);
    TimestampRoundTrip(v.deletion, t8 + rest);
    TimestampRoundTrip(v.ackByApp, rest);
  }

  // ---------------------------------------------------------------- payload

  /** Optional data (section 4.19): a flag, and the value if there is one. */
  function PutOptionalReport(v: OptionalReport): (r: seq<Byte>)
    ensures |r| == if v.NoReport? then 4 else 388
  {
    match v
    case NoReport => PutBool(false)
    case Report(x) => PutBool(true) + PutReport(x)
  }

  function GetOptionalReport(s: seq<Byte>): (p: Parse<OptionalReport>)
    ensures p.Ok? ==> |s| == (if p.value.NoReport? then 4 else 388) + |p.rest|
  {
    var (present, s1) :- GetBool(s);
    if !present then Ok(NoReport, s1)
    else
      var (x, s2) :- GetReport(s1);
      Ok(Report(x), s2)
  }

  lemma OptionalReportRoundTrip(v: OptionalReport, rest: seq<Byte>)
    ensures GetOptionalReport(PutOptionalReport(v) + rest) == Ok(v, rest)
  {
    match v
    case NoReport => BoolRoundTrip(false, rest);
    case Report(x) =>
      Assoc(PutBool(true), PutReport(x), rest);
      BoolRoundTrip(true, PutReport(x) + rest);
      ReportRoundTrip(x, rest);
  }

  lemma PayloadIsMultiple(a: nat, b: nat, c: nat)
    requires a % 4 == 0 && b % 4 == 0 && c % 4 == 0
    ensures (4 + a + b + c) % 4 == 0
  {
  }

  function PayloadSize(v: Payload): (n: nat)
    ensures n % 4 == 0
  {
    var a, b := BytesSize(|v.filename|), BytesSize(|v.buf|);
    var c := if v.report.NoReport? then 4 else 388;
    PayloadIsMultiple(a, b, c);
    4 + a + b + c
  }

  function PutPayload(v: Payload): (r: seq<Byte>)
    ensures |r| == PayloadSize(v)
  {
    PutI32(v.location) + (PutBytes(v.filename, MAX_PATH_LEN)
    + (PutBytes(v.buf, MAX_BUNDLE_MEM) + PutOptionalReport(v.report)))
  }

  function GetPayload(s: seq<Byte>): (p: Parse<Payload>)
    ensures p.Ok? ==> |s| == PayloadSize(p.value) + |p.rest|
  {
    var (location, s1) :- GetI32(s);
    var (filename, s2) :- GetBytes(s1, MAX_PATH_LEN);
    var (buf, s3) :- GetBytes(s2, MAX_BUNDLE_MEM);
    var (report, s4) :- GetOptionalReport(s3);
    Ok(Payload(location, filename, buf, report), s4)
  }

  lemma PayloadRoundTrip(v: Payload, rest: seq<Byte>)
    ensures GetPayload(PutPayload(v) + rest) == Ok(v, rest)
  {
    var t3 := PutOptionalReport(v.report);
    var t2 := PutBytes(v.buf, MAX_BUNDLE_MEM) + t3;
    var t1 := PutBytes(v.filename, MAX_PATH_LEN) + t2;
    Assoc(PutI32(v.location), t1, rest);
    I32RoundTrip(v.location, t1 + rest);
    Assoc(PutBytes(v.filename, MAX_PATH_LEN), t2, rest);
    BytesRoundTrip(v.filename, MAX_PATH_LEN, t2 + rest);
    Assoc(PutBytes(v.buf, MAX_BUNDLE_MEM), t3, rest);
    BytesRoundTrip(v.buf, MAX_BUNDLE_MEM, t3 + rest);
    OptionalReportRoundTrip(v.report, rest);
  }

  // ---------------------------------------------------------------- registration info

  function RegInfoSize(v: RegInfo): (n: nat)
    ensures n % 4 == 0
  {
    284 + BytesSize(|v.script|)
  }

  function PutRegInfo(v: RegInfo): (r: seq<Byte>)
    ensures |r| == RegInfoSize(v)
  {
    PutEid(v.endpoint) + (PutU32(v.regid) + (PutU32(v.flags) + (PutU32(v.replayFlags)
    + (PutU32(v.expiration) + (PutBool(v.passive) + (PutU64(v.token) + PutBytes(v.script, MAX_EXEC_LEN)))))))
  }

  function GetRegInfo(s: seq<Byte>): (p: Parse<RegInfo>)
    ensures p.Ok? ==> |s| == RegInfoSize(p.value) + |p.rest|
  {
    var (endpoint, s1) :- GetEid(s);
    var (regid, s2) :- GetU32(s1);
    var (flags, s3) :- GetU32(s2);
    var (replayFlags, s4) :- GetU32(s3);
    var (expiration, s5) :- GetU32(s4);
    var (passive, s6) :- GetBool(s5);
    var (token, s7) :- GetU64(s6);
    var (script, s8) :- GetBytes(s7, MAX_EXEC_LEN);
    Ok(RegInfo(endpoint, regid, flags, replayFlags, expiration, passive, token, script), s8)
  }

  lemma RegInfoRoundTrip(v: RegInfo, rest: seq<Byte>)
    ensures GetRegInfo(PutRegInfo(v) + rest) == Ok(v, rest)
  {
    var t7 := PutBytes(v.script, MAX_EXEC_LEN);
    var t6 := PutU64(v.token) + t7;
    var t5 := PutBool(v.passive) + t6;
    var t4 := PutU32(v.expiration) + t5;
    var t3 := PutU32(v.replayFlags) + t4;
    var t2 := PutU32(v.flags) + t3;
    var t1 := PutU32(v.regid) + t2;
    Assoc(PutEid(v.endpoint), t1, rest);
    EidRoundTrip(v.endpoint, t1 + rest);
    Assoc(PutU32(v.regid), t2, rest);
    U32RoundTrip(v.regid, t2 + rest);
    Assoc(PutU32(v.flags), t3, rest);
    U32RoundTrip(v.flags, t3 + rest);
    Assoc(PutU32(v.replayFlags), t4, rest);
    U32RoundTrip(v.replayFlags, t4 + rest);
    Assoc(PutU32(v.expiration), t5, rest);
    U32RoundTrip(v.expiration, t5 + rest);
    Assoc(PutBool(v.passive), t6, rest);
    BoolRoundTrip(v.passive, t6 + rest);
    Assoc(PutU64(v.token), t7, rest);
    U64RoundTrip(v.token, t7 + rest);
    BytesRoundTrip(v.script, MAX_EXEC_LEN, rest);
  }

  // ---------------------------------------------------------------- whole messages

  /** The body of a send request: a registration id, a spec and a payload. */
  function PutSend(regid: U32, spec: Spec, payload: Payload): (r: seq<Byte>)
    ensures |r| == 4 + SpecSize(spec) + PayloadSize(payload)
  {
    PutU32(regid) + (PutSpec(spec) + PutPayload(payload))
  }

  datatype Send = Send(regid: U32, spec: Spec, payload: Payload)

  /** How `handle_send` unpacks it. */
  function GetSend(s: seq<Byte>): (p: Parse<Send>)
    ensures p.Ok? ==> |s| == 4 + SpecSize(p.value.spec) + PayloadSize(p.value.payload) + |p.rest|
  {
    var (regid, s1) :- GetU32(s);
    var (spec, s2) :- GetSpec(s1);
    var (payload, s3) :- GetPayload(s2);
    Ok(Send(regid, spec, payload), s3)
  }

  /** The daemon unpacks exactly the request the application packed. */
  lemma SendRoundTrip(regid: U32, spec: Spec, payload: Payload, rest: seq<Byte>)
    ensures GetSend(PutSend(regid, spec, payload) + rest) == Ok(Send(regid, spec, payload), rest)
  {
    var t2 := PutPayload(payload);
    var t1 := PutSpec(spec) + t2;
    Assoc(PutU32(regid), t1, rest);
    U32RoundTrip(regid, t1 + rest);
    Assoc(PutSpec(spec), t2, rest);
    SpecRoundTrip(spec, t2 + rest);
    PayloadRoundTrip(payload, rest);
  }

  /** What a decoder accepts, it accepts again after re-encoding, in the same number of bytes. */
  lemma SendReencodes(s: seq<Byte>)
    ensures var p := GetSend(s);
            p.Ok? ==>
              var again := PutSend(p.value.regid, p.value.spec, p.value.payload) + p.rest;
              |again| == |s| && GetSend(again) == p
  {
    var p := GetSend(s);
    if p.Ok? {
      SendRoundTrip(p.value.regid, p.value.spec, p.value.payload, p.rest);
    }
  }

  /** The largest encoding of a send with its file name empty, outside its block elements. */
  const FIXED_MAX: nat := 53268

  function Outside(spec: Spec, payload: Payload): (n: nat) {
    4 + SpecSize(spec) + PayloadSize(payload) - ElementsSize(spec.blocks) - ElementsSize(spec.metadata)
  }

  /**
   An in-memory send needs at most 53268 bytes outside its extension and metadata blocks, so it
   fits the message buffer whenever those blocks encode to at most 12260 bytes.
   */
  lemma SendFits(regid: U32, spec: Spec, payload: Payload)
    requires payload.filename == []
    ensures Outside(spec, payload) <= FIXED_MAX
    ensures ElementsSize(spec.blocks) + ElementsSize(spec.metadata) <= 12260
            ==> |PutSend(regid, spec, payload)| <= MAX_BODY
  {
    BytesSizeMonotone(|spec.sequenceId|, 1024);
    BytesSizeMonotone(|spec.obsoletesId|, 1024);
    BytesSizeMonotone(|payload.buf|, 50000);
  }

  lemma BytesSizeOfMultiple(n: nat)
    requires n % 4 == 0
    ensures BytesSize(n) == 4 + n
  {
  }

  lemma BytesSizeMonotone(n: nat, max: nat)
    requires n <= max && max % 4 == 0
    ensures BytesSize(n) <= 4 + max
  {
  }

  /** The bound is met, so no larger allowance for blocks would do. */
  lemma SendFitsTight(regid: U32, spec: Spec, payload: Payload)
    requires |spec.sequenceId| == |spec.obsoletesId| == 1024
    requires payload.filename == [] && |payload.buf| == 50000 && payload.report.Report?
    ensures Outside(spec, payload) == FIXED_MAX
    ensures |PutSend(regid, spec, payload)| <= MAX_BODY <==>
            ElementsSize(spec.blocks) + ElementsSize(spec.metadata) <= 12260
  {
    BytesSizeOfMultiple(1024);
    BytesSizeOfMultiple(50000);
    BytesSizeOfMultiple(0);
  }

  // ---------------------------------------------------------------- where the fields are

  lemma TimestampLayout(t: Timestamp)
    ensures At(PutTimestamp(t), 0, PutU64(t.secs)) && At(PutTimestamp(t), 8, PutU64(t.seqno))
  {
  }

  lemma AddressesLayout(v: Spec)
    ensures At(PutAddresses(v), 0, v.source) && At(PutAddresses(v), 256, v.dest) && At(PutAddresses(v), 512, v.replyto)
  {
    assert PutEid(v.source) == v.source && PutEid(v.dest) == v.dest && PutEid(v.replyto) == v.replyto;
  }

  lemma OptionsLayout(v: Spec)
    ensures var o := PutOptions(v);
            && At(o, 0, PutI32(v.priority)) && At(o, 4, PutI32(v.dopts)) && At(o, 8, Word(v.expiration))
            && At(o, 12, PutTimestamp(v.creation)) && At(o, 28, Word(v.regid))
  {
    var times := PutTimestamp(v.creation) + Word(v.regid);
    var rest := Word(v.expiration) + times;
    AtFront(PutTimestamp(v.creation), Word(v.regid));
    AtBehind(Word(v.expiration), times, 0, PutTimestamp(v.creation));
    AtBehind(PutI32(v.dopts), rest, 4, PutTimestamp(v.creation));
    AtBehind(PutI32(v.priority), PutI32(v.dopts) + rest, 8, PutTimestamp(v.creation));
  }

  lemma VariableLayout(v: Spec)
    ensures var s, n := PutVariable(v), BytesSize(|v.sequenceId|);
            && At(s, 0, PutBytes(v.sequenceId, MAX_BLOCK_LEN)) && At(s, n, PutBytes(v.obsoletesId, MAX_BLOCK_LEN))
            && At(s, n + BytesSize(|v.obsoletesId|), PutBlocks(v.blocks))
            && s[n + BytesSize(|v.obsoletesId|) + |PutBlocks(v.blocks)|..] == PutBlocks(v.metadata)
  {
    var a, b := PutBytes(v.sequenceId, MAX_BLOCK_LEN), PutBytes(v.obsoletesId, MAX_BLOCK_LEN);
    var c, d := PutBlocks(v.blocks), PutBlocks(v.metadata);
    AtFront(a, b + (c + d));
    AtFront(b, c + d);
    AtFront(c, d);
    AtBehind(a, b + (c + d), 0, b);
    AtBehind(b, c + d, 0, c);
    AtBehind(a, b + (c + d), |b|, c);
  }

  /** The three parts of a spec stand one behind the other, the first two at fixed places. */
  lemma SpecLayout(v: Spec)
    ensures At(PutSpec(v), 0, PutAddresses(v)) && At(PutSpec(v), 768, PutOptions(v)) && PutSpec(v)[800..] == PutVariable(v)
  {
    AtFront(PutAddresses(v), PutOptions(v) + PutVariable(v));
    AtFront(PutOptions(v), PutVariable(v));
    AtBehind(PutAddresses(v), PutOptions(v) + PutVariable(v), 0, PutOptions(v));
    assert PutSpec(v)[768..] == PutOptions(v) + PutVariable(v);
    assert PutSpec(v)[800..] == PutSpec(v)[768..][32..];
  }

  /** Every field of a registration info stands at a place of its own. */
  lemma RegInfoLayout(v: RegInfo)
    ensures var s := PutRegInfo(v);
            && At(s, 0, v.endpoint) && At(s, 256, Word(v.regid)) && At(s, 260, Word(v.flags)) && At(s, 264, Word(v.replayFlags))
            && s[268..] == RegInfoEnd(v)
    ensures var t := RegInfoEnd(v);
            && At(t, 0, Word(v.expiration)) && At(t, 4, PutBool(v.passive)) && At(t, 8, PutU64(v.token))
            && t[16..] == PutBytes(v.script, MAX_EXEC_LEN)
  {
    assert PutEid(v.endpoint) == v.endpoint;
  }

  function RegInfoEnd(v: RegInfo): (s: seq<Byte>) {
    Word(v.expiration) + (PutBool(v.passive) + (PutU64(v.token) + PutBytes(v.script, MAX_EXEC_LEN)))
  }

  lemma BundleIdLayout(v: BundleId)
    ensures var s := PutBundleId(v);
            && At(s, 0, v.source) && At(s, 256, PutTimestamp(v.creation))
            && At(s, 272, Word(v.fragOffset)) && At(s, 276, Word(v.origLength))
  {
    assert PutEid(v.source) == v.source;
  }

  lemma TimesLayout(v: StatusReport)
    ensures var s := PutTimes(v);
            && At(s, 0, PutTimestamp(v.receipt)) && At(s, 16, PutTimestamp(v.custody)) && At(s, 32, PutTimestamp(v.forwarding))
            && At(s, 48, PutTimestamp(v.delivery)) && At(s, 64, PutTimestamp(v.deletion)) && At(s, 80, PutTimestamp(v.ackByApp))
  {
  }

  lemma ReportLayout(v: StatusReport)
    ensures var s := PutReport(v);
            At(s, 0, PutBundleId(v.id)) && At(s, 280, PutI32(v.reason)) && At(s, 284, PutI32(v.flags)) && At(s, 288, PutTimes(v))
  {
  }

  lemma PayloadLayout(v: Payload)
    ensures var s, n := PutPayload(v), BytesSize(|v.filename|);
            && At(s, 0, PutI32(v.location)) && At(s, 4, PutBytes(v.filename, MAX_PATH_LEN))
            && At(s, 4 + n, PutBytes(v.buf, MAX_BUNDLE_MEM))
            && s[4 + n + BytesSize(|v.buf|)..] == PutOptionalReport(v.report)
  {
    var f, b, r := PutBytes(v.filename, MAX_PATH_LEN), PutBytes(v.buf, MAX_BUNDLE_MEM), PutOptionalReport(v.report);
    AtFront(f, b + r);
    AtFront(b, r);
    AtBehind(f, b + r, 0, b);
    AtBehind(PutI32(v.location), f + (b + r), 0, f);
    AtBehind(PutI32(v.location), f + (b + r), |f|, b);
  }

  /** A send request is its registration, the spec and the payload, in that order. */
  lemma SendLayout(regid: U32, spec: Spec, payload: Payload)
    ensures var s := PutSend(regid, spec, payload);
            At(s, 0, Word(regid)) && At(s, 4, PutSpec(spec)) && s[4 + SpecSize(spec)..] == PutPayload(payload)
  {
    AtFront(PutSpec(spec), PutPayload(payload));
    AtBehind(Word(regid), PutSpec(spec) + PutPayload(payload), 0, PutSpec(spec));
  }

  /** An array is its length and then its elements, each its type, its flags and its data. */
  lemma BlocksLayout(bs: Blocks)
    ensures At(PutBlocks(bs), 0, Word(|bs|)) && PutBlocks(bs)[4..] == PutElements(bs)
    ensures bs != [] ==>
      && At(PutElements(bs), 0, Word(bs[0].kind)) && At(PutElements(bs), 4, Word(bs[0].flags))
      && At(PutElements(bs), 8, PutBytes(bs[0].data, MAX_BLOCK_LEN))
      && PutElements(bs)[BlockSize(bs[0])..] == PutElements(bs[1..])
  {
    if bs != [] {
      var d, rest := PutBytes(bs[0].data, MAX_BLOCK_LEN), PutElements(bs[1..]);
      assert PutElements(bs) == PutBlock(bs[0]) + rest;
      BlockLayout(bs[0]);
      assert PutElements(bs)[..BlockSize(bs[0])] == PutBlock(bs[0]);
      AtStart(PutBlock(bs[0]), rest, 0, Word(bs[0].kind));
      AtStart(PutBlock(bs[0]), rest, 4, Word(bs[0].flags));
      AtStart(PutBlock(bs[0]), rest, 8, d);
    }
  }

  lemma BlockLayout(b: Block)
    ensures At(PutBlock(b), 0, Word(b.kind)) && At(PutBlock(b), 4, Word(b.flags)) && At(PutBlock(b), 8, PutBytes(b.data, MAX_BLOCK_LEN))
  {
  }

  lemma AtStart(a: seq<Byte>, rest: seq<Byte>, at: nat, x: seq<Byte>)
    requires At(a, at, x)
    ensures At(a + rest, at, x)
  {
    assert (a + rest)[at..at + |x|] == a[at..at + |x|];
  }
}
