/** The signed update envelope: the packer's writer and the client's left-to-right reader. */
module Envelope {
  import opened Util
  import opened Repeated

  datatype Channel = Stable | Beta | CanaryPublic | CanaryPrivate {
    function Code(): Byte {
      match this case Stable => 0 case Beta => 1 case CanaryPublic => 2 case CanaryPrivate => 3
    }
  }

  datatype Os = Windows | Mac | Linux {
    function Code(): Byte {
      match this case Windows => 0 case Mac => 1 case Linux => 2
    }
  }

  datatype Arch = X86 | X64 | Arm {
    function Code(): Byte {
      match this case X86 => 0 case X64 => 1 case Arm => 2
    }
  }

  type Uint32 = x: int | 0 <= x < 0x1_0000_0000
  type Uint64 = x: int | 0 <= x < 0x1_0000_0000_0000_0000
  type Int64 = x: int | -0x8000_0000_0000_0000 <= x < 0x8000_0000_0000_0000

  datatype Signature = Signature(keyId: seq<Byte>, bytes: seq<Byte>)

  datatype Head = Head(channel: Channel, os: Os, arch: Arch, version: Uint64, created: Int64)

  datatype Envelope = Envelope(
    head: Head,
    manifest: seq<Byte>,
    manifestSignature: seq<Byte>,
    signatures: seq<Signature>,
    payload: seq<Byte>)

  // ---------- little-endian integers ----------

  /** A cast to quint32 keeps the low 32 bits. */
  function Low32(n: nat): Uint32 {
    n % 0x1_0000_0000
  }

  /** The low n bytes of a number, least significant first: the writer's masks and shifts. */
  function LittleEndian(v: nat, n: nat): (bytes: seq<Byte>)
    ensures |bytes| == n
  {
    if n == 0 then [] else [v % 256] + LittleEndian(v / 256, n - 1)
  }

  /** The number some bytes spell: the reader's OR of shifted bytes. */
  function FromLittle(bytes: seq<Byte>): nat {
    if |bytes| == 0 then 0 else bytes[0] as int + 256 * FromLittle(bytes[1..])
  }

  function Limit(n: nat): nat {
    if n == 0 then 1 else 256 * Limit(n - 1)
  }

  lemma {:induction false} NumberRoundTrip(v: nat, n: nat)
    requires v < Limit(n)
    ensures FromLittle(LittleEndian(v, n)) == v
  {
    if n > 0 {
      NumberRoundTrip(v / 256, n - 1);
      assert LittleEndian(v, n)[1..] == LittleEndian(v / 256, n - 1);
    }
  }

  lemma {:induction false} BytesRoundTrip(bytes: seq<Byte>)
    ensures FromLittle(bytes) < Limit(|bytes|)
    ensures LittleEndian(FromLittle(bytes), |bytes|) == bytes
  {
    if |bytes| > 0 {
      BytesRoundTrip(bytes[1..]);
      assert FromLittle(bytes) / 256 == FromLittle(bytes[1..]);
    }
  }

  function Le32(v: Uint32): (bytes: seq<Byte>)
    ensures |bytes| == 4
  {
    LittleEndian(v, 4)
  }

  function Le64(v: Uint64): (bytes: seq<Byte>)
    ensures |bytes| == 8
  {
    Le32(v % 0x1_0000_0000) + Le32(v / 0x1_0000_0000)
  }

  /** quint64(qint64) and back: two's complement. */
  function ToUnsigned(n: Int64): Uint64 {
    if n < 0 then n + 0x1_0000_0000_0000_0000 else n
  }

  function ToSigned(n: Uint64): (r: Int64)
    ensures ToUnsigned(r) == n
  {
    if n < 0x8000_0000_0000_0000 then n else n - 0x1_0000_0000_0000_0000
  }

  lemma Le32Bytes(v: Uint32)
    ensures Le32(v) == [v % 256, v / 256 % 256, v / 256 / 256 % 256, v / 256 / 256 / 256]
  {
    var v1, v2, v3 := v / 256, v / 256 / 256, v / 256 / 256 / 256;
    assert LittleEndian(v3 / 256, 0) == [];
    assert LittleEndian(v3, 1) == [v3 % 256] && v3 % 256 == v3;
    assert LittleEndian(v2, 2) == [v2 % 256, v3];
    assert LittleEndian(v1, 3) == [v1 % 256, v2 % 256, v3];
  }

  lemma Limit32()
    ensures Limit(4) == 0x1_0000_0000
  {
    assert Limit(2) == 0x1_0000;
  }

  lemma Halves(low: Uint32, high: Uint32)
    ensures Le64(low + high * 0x1_0000_0000) == Le32(low) + Le32(high)
  {
    var n: Uint64 := low + high * 0x1_0000_0000;
    assert n % 0x1_0000_0000 == low && n / 0x1_0000_0000 == high;
  }

  // ---------- the writer ----------

  const MAGIC: seq<Byte> := [0x54, 0x44, 0x55, 0x50] // TDUP
  const FORMAT: Uint32 := 2

  function HeadBytes(h: Head): (bytes: seq<Byte>)
    ensures |bytes| == 27
  {
    MAGIC + Le32(FORMAT) + [h.channel.Code(), h.os.Code(), h.arch.Code()] + Le64(h.version)
    + Le64(ToUnsigned(h.created))
  }

  /** A length-prefixed byte array. */
  function Blob(bytes: seq<Byte>): seq<Byte> {
    Le32(Low32(|bytes|)) + bytes
  }

  function OneSignature(s: Signature): seq<Byte> {
    Blob(s.keyId) + Blob(s.bytes)
  }

  const WRITE_SIGNATURE: Signature -> seq<Byte> := s => OneSignature(s)

  function SignatureBytes(signatures: seq<Signature>): seq<Byte> {
    WriteMany(WRITE_SIGNATURE, signatures)
  }

  /** From the magic through the manifest: the part every signature covers. */
  function SignedRegion(e: Envelope): seq<Byte> {
    HeadBytes(e.head) + Blob(e.manifest)
  }

  function SignatureSection(signatures: seq<Signature>): seq<Byte> {
    Le32(Low32(|signatures|)) + SignatureBytes(signatures)
  }

  function Build(e: Envelope): seq<Byte> {
    SignedRegion(e) + Blob(e.manifestSignature) + SignatureSection(e.signatures) + Blob(e.payload)
  }

  method AppendLeU32(to: seq<Byte>, value: Uint32) returns (result: seq<Byte>)
    ensures result == to + Le32(value)
  {
    Le32Bytes(value);
    result := to + [value % 256, value / 256 % 256, value / 256 / 256 % 256, value / 256 / 256 / 256];
  }

  method AppendLeU64(to: seq<Byte>, value: Uint64) returns (result: seq<Byte>)
    ensures result == to + Le64(value)
  {
    result := AppendLeU32(to, value % 0x1_0000_0000);
    result := AppendLeU32(result, value / 0x1_0000_0000);
  }

  method AppendBlob(to: seq<Byte>, bytes: seq<Byte>) returns (result: seq<Byte>)
    ensures result == to + Blob(bytes)
  {
    result := AppendLeU32(to, Low32(|bytes|));
    result := result + bytes;
  }

  method BuildHead(h: Head) returns (result: seq<Byte>)
    ensures result == HeadBytes(h)
  {
    result := MAGIC;
    result := AppendLeU32(result, FORMAT);
    result := result + [h.channel.Code()];
    result := result + [h.os.Code()];
    result := result + [h.arch.Code()];
    result := AppendLeU64(result, h.version);
    result := AppendLeU64(result, ToUnsigned(h.created));
  }

  method AppendSignatures(to: seq<Byte>, signatures: seq<Signature>) returns (result: seq<Byte>)
    ensures result == to + SignatureSection(signatures)
  {
    result := AppendLeU32(to, Low32(|signatures|));
    ghost var count := Le32(Low32(|signatures|));
    for i := 0 to |signatures|
      invariant result == to + (count + SignatureBytes(signatures[..i]))
    {
      var s := signatures[i];
      ghost var written := SignatureBytes(signatures[..i]);
      result := AppendBlob(result, s.keyId);
      result := AppendBlob(result, s.bytes);
      WriteManyAppend(WRITE_SIGNATURE, signatures[..i], s);
      assert signatures[..i] + [s] == signatures[..i + 1];
      Regroup(to, count, written, Blob(s.keyId), Blob(s.bytes));
    }
    assert signatures[..|signatures|] == signatures;
  }

  method BuildV2Envelope(e: Envelope) returns (result: seq<Byte>)
    ensures result == Build(e)
  {
    result := BuildHead(e.head);
    result := AppendBlob(result, e.manifest);
    result := AppendBlob(result, e.manifestSignature);
    result := AppendSignatures(result, e.signatures);
    result := AppendBlob(result, e.payload);
  }

  lemma Regroup<T>(a: seq<T>, b: seq<T>, c: seq<T>, d: seq<T>, e: seq<T>)
    ensures a + (b + c) + d + e == a + (b + (c + (d + e)))
  {
  }

  // ---------- the reader ----------

  /** The structural caps of the client's parser. */
  datatype Limits = Limits(
    emptyAllowed: bool,
    manifest: nat,
    manifestSignature: nat,
    signatures: nat,
    keyId: nat,
    signature: nat,
    payload: nat)

  const CLIENT := Limits(false, 256 * 1024, 256, 16, 64, 512, 256 * 1024 * 1024)

  /** No caps beyond the 32-bit length fields: the same reader, to state what the bytes determine. */
  const UNLIMITED := Limits(true, 0xffff_ffff, 0xffff_ffff, 0xffff_ffff, 0xffff_ffff, 0xffff_ffff, 0xffff_ffff)

  datatype Parsed = Parsed(envelope: Envelope, signedRegion: seq<Byte>)

  function U32At(data: seq<Byte>, offset: nat): (v: Uint32)
    requires offset + 4 <= |data|
    ensures Holds(data, offset, Le32(v))
  {
    BytesRoundTrip(data[offset..offset + 4]);
    Limit32();
    FromLittle(data[offset..offset + 4])
  }

  function U64At(data: seq<Byte>, offset: nat): (v: Uint64)
    requires offset + 8 <= |data|
    ensures Holds(data, offset, Le64(v))
  {
    var low, high := U32At(data, offset), U32At(data, offset + 4);
    Halves(low, high);
    JoinSlices(data, offset, Le32(low), Le32(high));
    low + high * 0x1_0000_0000
  }

  function ReadU32(data: seq<Byte>, offset: nat): Option<Uint32> {
    if offset + 4 <= |data| then Some(U32At(data, offset)) else None
  }

  function ReadHead(data: seq<Byte>): Option<Head> {
    if |data| < 27 || data[..4] != MAGIC || U32At(data, 4) != FORMAT then None
    else if data[8] > 3 || data[9] > 2 || data[10] > 2 then None
    else
      var channel := if data[8] == 0 then Stable else if data[8] == 1 then Beta
                     else if data[8] == 2 then CanaryPublic else CanaryPrivate;
      var os := if data[9] == 0 then Windows else if data[9] == 1 then Mac else Linux;
      var arch := if data[10] == 0 then X86 else if data[10] == 1 then X64 else Arm;
      Some(Head(channel, os, arch, U64At(data, 11), ToSigned(U64At(data, 19))))
  }

  predicate Accepts(l: Limits, length: nat, max: nat) {
    length <= max && (l.emptyAllowed || length > 0)
  }

  /** A length-prefixed array and the offset behind it. */
  function ReadBlob(l: Limits, data: seq<Byte>, offset: nat, max: nat): Option<(seq<Byte>, nat)> {
    match ReadU32(data, offset)
    case None => None
    case Some(length) =>
      if !Accepts(l, length, max) || offset + 4 + length > |data| then None
      else Some((data[offset + 4..offset + 4 + length], offset + 4 + length))
  }

  function ReadSignature(l: Limits, data: seq<Byte>, offset: nat): Option<(Signature, nat)> {
    match ReadBlob(l, data, offset, l.keyId)
    case None => None
    case Some((keyId, o1)) =>
      match ReadBlob(l, data, o1, l.signature)
      case None => None
      case Some((bytes, o2)) => Some((Signature(keyId, bytes), o2))
  }

  function SignatureReader(l: Limits, data: seq<Byte>): ReaderOf<Signature> {
    (offset: nat) => ReadSignature(l, data, offset)
  }

  function ReadSignatures(l: Limits, data: seq<Byte>, offset: nat, count: nat): Option<(seq<Signature>, nat)> {
    ReadMany(SignatureReader(l, data), offset, count)
  }

  function ReadSignatureSection(l: Limits, data: seq<Byte>, offset: nat): Option<(seq<Signature>, nat)> {
    match ReadU32(data, offset)
    case None => None
    case Some(count) => if count > l.signatures then None else ReadSignatures(l, data, offset + 4, count)
  }

  function Parse(l: Limits, data: seq<Byte>): Option<Parsed> {
    match ReadHead(data)
    case None => None
    case Some(head) =>
      match ReadBlob(l, data, 27, l.manifest)
      case None => None
      case Some((manifest, o1)) => ParseTail(l, data, head, manifest, o1)
  }

  function ParseTail(l: Limits, data: seq<Byte>, head: Head, manifest: seq<Byte>, o1: nat): Option<Parsed> {
    match ReadBlob(l, data, o1, l.manifestSignature)
    case None => None
    case Some((manifestSignature, o2)) =>
      match ReadSignatureSection(l, data, o2)
      case None => None
      case Some((signatures, o3)) =>
        match ReadBlob(l, data, o3, l.payload)
        case None => None
        case Some((payload, o4)) =>
          if o4 != |data| || o1 > |data| then None
          else Some(Parsed(Envelope(head, manifest, manifestSignature, signatures, payload), data[..o1]))
  }

  // ---------- reading what was written ----------

  /** Lengths and counts the 32-bit fields can hold. */
  ghost predicate SizedSignatures(signatures: seq<Signature>) {
    forall i | 0 <= i < |signatures| ::
      |signatures[i].keyId| <= 0xffff_ffff && |signatures[i].bytes| <= 0xffff_ffff
  }

  ghost predicate Sized(e: Envelope) {
    && |e.manifest| <= 0xffff_ffff && |e.manifestSignature| <= 0xffff_ffff && |e.payload| <= 0xffff_ffff
    && |e.signatures| <= 0xffff_ffff && SizedSignatures(e.signatures)
  }

  predicate AcceptsSignature(l: Limits, s: Signature) {
    Accepts(l, |s.keyId|, l.keyId) && Accepts(l, |s.bytes|, l.signature)
  }

  function SignatureFilter(l: Limits): Signature -> bool {
    (s: Signature) => AcceptsSignature(l, s)
  }

  ghost predicate AcceptsSignatures(l: Limits, signatures: seq<Signature>) {
    AcceptsAll(SignatureFilter(l), signatures)
  }

  ghost predicate AcceptsEnvelope(l: Limits, e: Envelope) {
    && Accepts(l, |e.manifest|, l.manifest) && Accepts(l, |e.manifestSignature|, l.manifestSignature)
    && |e.signatures| <= l.signatures && AcceptsSignatures(l, e.signatures)
    && Accepts(l, |e.payload|, l.payload)
  }

  lemma U32Read(data: seq<Byte>, offset: nat, v: Uint32)
    requires Holds(data, offset, Le32(v))
    ensures offset + 4 <= |data| && U32At(data, offset) == v
  {
    Limit32();
    NumberRoundTrip(v, 4);
  }

  lemma U64Read(data: seq<Byte>, offset: nat, v: Uint64)
    requires Holds(data, offset, Le64(v))
    ensures offset + 8 <= |data| && U64At(data, offset) == v
  {
    SplitSlice(data, offset, Le32(v % 0x1_0000_0000), Le32(v / 0x1_0000_0000));
    U32Read(data, offset, v % 0x1_0000_0000);
    U32Read(data, offset + 4, v / 0x1_0000_0000);
  }

  lemma HeadPieces(data: seq<Byte>, h: Head)
    requires Holds(data, 0, HeadBytes(h))
    ensures Holds(data, 0, MAGIC) && Holds(data, 4, Le32(FORMAT))
    ensures Holds(data, 8, [h.channel.Code(), h.os.Code(), h.arch.Code()])
    ensures Holds(data, 11, Le64(h.version)) && Holds(data, 19, Le64(ToUnsigned(h.created)))
  {
    var codes := [h.channel.Code(), h.os.Code(), h.arch.Code()];
    var version, created := Le64(h.version), Le64(ToUnsigned(h.created));
    SplitSlice(data, 0, MAGIC + Le32(FORMAT) + codes + version, created);
    SplitSlice(data, 0, MAGIC + Le32(FORMAT) + codes, version);
    SplitSlice(data, 0, MAGIC + Le32(FORMAT), codes);
    SplitSlice(data, 0, MAGIC, Le32(FORMAT));
  }

  lemma ThreeBytes(data: seq<Byte>, offset: nat, a: Byte, b: Byte, c: Byte)
    requires Holds(data, offset, [a, b, c])
    ensures offset + 3 <= |data| && data[offset] == a && data[offset + 1] == b && data[offset + 2] == c
  {
    var s := data[offset..offset + 3];
    assert s == [a, b, c];
    assert data[offset] == s[0] && data[offset + 1] == s[1] && data[offset + 2] == s[2];
  }

  lemma HeadRead(data: seq<Byte>, h: Head)
    requires Holds(data, 0, HeadBytes(h))
    ensures ReadHead(data) == Some(h)
  {
    HeadPieces(data, h);
    U32Read(data, 4, FORMAT);
    U64Read(data, 11, h.version);
    U64Read(data, 19, ToUnsigned(h.created));
    ThreeBytes(data, 8, h.channel.Code(), h.os.Code(), h.arch.Code());
  }

  lemma HeadCanonical(data: seq<Byte>)
    requires ReadHead(data).Some?
    ensures Holds(data, 0, HeadBytes(ReadHead(data).value))
  {
    var h := ReadHead(data).value;
    var codes := [h.channel.Code(), h.os.Code(), h.arch.Code()];
    JoinSlices(data, 0, MAGIC, Le32(FORMAT));
    assert data[8..11] == codes;
    JoinSlices(data, 0, MAGIC + Le32(FORMAT), codes);
    JoinSlices(data, 0, MAGIC + Le32(FORMAT) + codes, Le64(h.version));
    JoinSlices(data, 0, MAGIC + Le32(FORMAT) + codes + Le64(h.version), Le64(ToUnsigned(h.created)));
  }

  lemma BlobIs(bytes: seq<Byte>)
    requires |bytes| <= 0xffff_ffff
    ensures Blob(bytes) == Le32(|bytes|) + bytes
  {
  }

  lemma BlobRead(l: Limits, data: seq<Byte>, offset: nat, max: nat, bytes: seq<Byte>, end: nat)
    requires |bytes| <= 0xffff_ffff && Holds(data, offset, Blob(bytes)) && end == offset + |Blob(bytes)|
    ensures ReadBlob(l, data, offset, max) == if Accepts(l, |bytes|, max) then Some((bytes, end)) else None
  {
    BlobIs(bytes);
    SplitSlice(data, offset, Le32(|bytes|), bytes);
    U32Read(data, offset, |bytes|);
  }

  lemma BlobCanonical(l: Limits, data: seq<Byte>, offset: nat, max: nat)
    requires ReadBlob(l, data, offset, max).Some?
    ensures var (bytes, end) := ReadBlob(l, data, offset, max).value;
            && |bytes| <= 0xffff_ffff && Accepts(l, |bytes|, max)
            && end == offset + |Blob(bytes)| && Holds(data, offset, Blob(bytes))
  {
    var (bytes, end) := ReadBlob(l, data, offset, max).value;
    BlobIs(bytes);
    JoinSlices(data, offset, Le32(|bytes|), bytes);
  }

  lemma SignatureRead(l: Limits, data: seq<Byte>, offset: nat, s: Signature, end: nat)
    requires |s.keyId| <= 0xffff_ffff && |s.bytes| <= 0xffff_ffff
    requires Holds(data, offset, OneSignature(s)) && end == offset + |OneSignature(s)|
    ensures ReadSignature(l, data, offset) == if AcceptsSignature(l, s) then Some((s, end)) else None
  {
    SplitSlice(data, offset, Blob(s.keyId), Blob(s.bytes));
    BlobRead(l, data, offset, l.keyId, s.keyId, offset + |Blob(s.keyId)|);
    BlobRead(l, data, offset + |Blob(s.keyId)|, l.signature, s.bytes, end);
  }

  lemma SignaturesReadBack(l: Limits, data: seq<Byte>, signatures: seq<Signature>)
    requires SizedSignatures(signatures)
    ensures AllReadBack(SignatureReader(l, data), WRITE_SIGNATURE, SignatureFilter(l), data, signatures)
  {
    forall i | 0 <= i < |signatures|
      ensures ReadsBack(SignatureReader(l, data), WRITE_SIGNATURE, SignatureFilter(l), data, signatures[i])
    {
      SignatureReadsBack(l, data, signatures[i]);
    }
  }

  lemma SignaturesRead(l: Limits, data: seq<Byte>, offset: nat, signatures: seq<Signature>, end: nat)
    requires SizedSignatures(signatures)
    requires Holds(data, offset, SignatureBytes(signatures)) && end == offset + |SignatureBytes(signatures)|
    ensures ReadSignatures(l, data, offset, |signatures|)
         == if AcceptsSignatures(l, signatures) then Some((signatures, end)) else None
  {
    SignaturesReadBack(l, data, signatures);
    ManyReadsBack(SignatureReader(l, data), WRITE_SIGNATURE, SignatureFilter(l), data, offset, signatures, end);
  }

  lemma SignatureReadsBack(l: Limits, data: seq<Byte>, s: Signature)
    requires |s.keyId| <= 0xffff_ffff && |s.bytes| <= 0xffff_ffff
    ensures ReadsBack(SignatureReader(l, data), WRITE_SIGNATURE, SignatureFilter(l), data, s)
  {
    forall offset: nat | Holds(data, offset, WRITE_SIGNATURE(s))
      ensures SignatureReader(l, data)(offset)
           == if SignatureFilter(l)(s) then Some((s, offset + |WRITE_SIGNATURE(s)|)) else None
    {
      SignatureRead(l, data, offset, s, offset + |OneSignature(s)|);
    }
  }

  lemma SignatureCanonical(l: Limits, data: seq<Byte>, offset: nat)
    requires ReadSignature(l, data, offset).Some?
    ensures var (s, end) := ReadSignature(l, data, offset).value;
            && |s.keyId| <= 0xffff_ffff && |s.bytes| <= 0xffff_ffff && AcceptsSignature(l, s)
            && end == offset + |OneSignature(s)| && Holds(data, offset, OneSignature(s))
  {
    var (keyId, o1) := ReadBlob(l, data, offset, l.keyId).value;
    var (bytes, o2) := ReadBlob(l, data, o1, l.signature).value;
    BlobCanonical(l, data, offset, l.keyId);
    BlobCanonical(l, data, o1, l.signature);
    JoinSlices(data, offset, Blob(keyId), Blob(bytes));
  }

  /** Read signatures are within the caps and the 32-bit sizes. */
  function SizedFilter(l: Limits): Signature -> bool {
    (s: Signature) => AcceptsSignature(l, s) && |s.keyId| <= 0xffff_ffff && |s.bytes| <= 0xffff_ffff
  }

  lemma SignaturesCanonical(l: Limits, data: seq<Byte>, offset: nat, count: nat)
    requires ReadSignatures(l, data, offset, count).Some? && offset <= |data|
    ensures var (signatures, end) := ReadSignatures(l, data, offset, count).value;
            && |signatures| == count && SizedSignatures(signatures) && AcceptsSignatures(l, signatures)
            && end == offset + |SignatureBytes(signatures)| && Holds(data, offset, SignatureBytes(signatures))
  {
    forall o: nat | SignatureReader(l, data)(o).Some?
      ensures var (s, end) := SignatureReader(l, data)(o).value;
              SizedFilter(l)(s) && end == o + |WRITE_SIGNATURE(s)| && Holds(data, o, WRITE_SIGNATURE(s))
    {
      SignatureCanonical(l, data, o);
    }
    ManyCanonical(SignatureReader(l, data), WRITE_SIGNATURE, SizedFilter(l), data, offset, count);
    var (signatures, _) := ReadSignatures(l, data, offset, count).value;
    forall i | 0 <= i < |signatures|
      ensures SignatureFilter(l)(signatures[i])
      ensures |signatures[i].keyId| <= 0xffff_ffff && |signatures[i].bytes| <= 0xffff_ffff
    {
      assert SizedFilter(l)(signatures[i]);
    }
  }

  lemma SectionIs(signatures: seq<Signature>)
    requires |signatures| <= 0xffff_ffff
    ensures SignatureSection(signatures) == Le32(|signatures|) + SignatureBytes(signatures)
    ensures |SignatureSection(signatures)| == 4 + |SignatureBytes(signatures)|
  {
    assert Low32(|signatures|) == |signatures|;
  }

  lemma SectionRead(l: Limits, data: seq<Byte>, offset: nat, signatures: seq<Signature>, end: nat)
    requires |signatures| <= 0xffff_ffff && SizedSignatures(signatures)
    requires Holds(data, offset, SignatureSection(signatures)) && end == offset + |SignatureSection(signatures)|
    ensures ReadSignatureSection(l, data, offset)
         == if |signatures| <= l.signatures && AcceptsSignatures(l, signatures) then Some((signatures, end)) else None
  {
    SectionIs(signatures);
    SplitSlice(data, offset, Le32(|signatures|), SignatureBytes(signatures));
    U32Read(data, offset, |signatures|);
    SignaturesRead(l, data, offset + 4, signatures, end);
  }

  lemma SectionCanonical(l: Limits, data: seq<Byte>, offset: nat)
    requires ReadSignatureSection(l, data, offset).Some?
    ensures var (signatures, end) := ReadSignatureSection(l, data, offset).value;
            && |signatures| <= 0xffff_ffff && SizedSignatures(signatures)
            && |signatures| <= l.signatures && AcceptsSignatures(l, signatures)
            && end == offset + |SignatureSection(signatures)| && Holds(data, offset, SignatureSection(signatures))
  {
    var count := U32At(data, offset);
    SignaturesCanonical(l, data, offset + 4, count);
    var (signatures, end) := ReadSignatures(l, data, offset + 4, count).value;
    SectionIs(signatures);
    JoinSlices(data, offset, Le32(count), SignatureBytes(signatures));
  }

  // ---------- the whole envelope ----------

  lemma FiveSlices<T>(a: seq<T>, b: seq<T>, c: seq<T>, d: seq<T>, e: seq<T>)
    ensures var s := a + b + c + d + e;
            && Holds(s, 0, a) && Holds(s, |a|, b) && Holds(s, |a| + |b|, c) && Holds(s, |a| + |b| + |c|, d)
            && Holds(s, |a| + |b| + |c| + |d|, e)
  {
  }

  /**
   * The client's reader on what the packer writes: it recovers every field and the signed region, and it refuses
   * exactly the envelopes with a field beyond its caps.
   */
  lemma ParseBuild(l: Limits, e: Envelope)
    requires Sized(e)
    ensures Parse(l, Build(e)) == if AcceptsEnvelope(l, e) then Some(Parsed(e, SignedRegion(e))) else None
  {
    var a, b, c, d, f := HeadBytes(e.head), Blob(e.manifest), Blob(e.manifestSignature),
                         SignatureSection(e.signatures), Blob(e.payload);
    FiveSlices(a, b, c, d, f);
    ParseSlices(l, a + b + c + d + f, e, |a| + |b|, |a| + |b| + |c|, |a| + |b| + |c| + |d|);
  }

  lemma ParseSlices(l: Limits, data: seq<Byte>, e: Envelope, o1: nat, o2: nat, o3: nat)
    requires Sized(e)
    requires Holds(data, 0, HeadBytes(e.head)) && Holds(data, 27, Blob(e.manifest)) && o1 == 27 + |Blob(e.manifest)|
    requires Holds(data, o1, Blob(e.manifestSignature)) && o2 == o1 + |Blob(e.manifestSignature)|
    requires Holds(data, o2, SignatureSection(e.signatures)) && o3 == o2 + |SignatureSection(e.signatures)|
    requires Holds(data, o3, Blob(e.payload)) && |data| == o3 + |Blob(e.payload)|
    ensures Parse(l, data) == if AcceptsEnvelope(l, e) then Some(Parsed(e, SignedRegion(e))) else None
  {
    HeadRead(data, e.head);
    BlobRead(l, data, 27, l.manifest, e.manifest, o1);
    TailRead(l, data, e, o1, o2, o3);
    JoinSlices(data, 0, HeadBytes(e.head), Blob(e.manifest));
    assert data[..o1] == SignedRegion(e);
  }

  lemma TailRead(l: Limits, data: seq<Byte>, e: Envelope, o1: nat, o2: nat, o3: nat)
    requires Sized(e)
    requires Holds(data, o1, Blob(e.manifestSignature)) && o2 == o1 + |Blob(e.manifestSignature)|
    requires Holds(data, o2, SignatureSection(e.signatures)) && o3 == o2 + |SignatureSection(e.signatures)|
    requires Holds(data, o3, Blob(e.payload)) && |data| == o3 + |Blob(e.payload)|
    ensures ParseTail(l, data, e.head, e.manifest, o1)
         == if && Accepts(l, |e.manifestSignature|, l.manifestSignature)
               && |e.signatures| <= l.signatures && AcceptsSignatures(l, e.signatures)
               && Accepts(l, |e.payload|, l.payload)
            then Some(Parsed(e, data[..o1])) else None
  {
    BlobRead(l, data, o1, l.manifestSignature, e.manifestSignature, o2);
    SectionRead(l, data, o2, e.signatures, o3);
    BlobRead(l, data, o3, l.payload, e.payload, |data|);
    var sectionFits := |e.signatures| <= l.signatures && AcceptsSignatures(l, e.signatures);
    TailCompose(l, data, e, o1, o2, o3, Accepts(l, |e.manifestSignature|, l.manifestSignature), sectionFits,
                Accepts(l, |e.payload|, l.payload));
  }

  lemma TailCompose(l: Limits, data: seq<Byte>, e: Envelope, o1: nat, o2: nat, o3: nat, a: bool, b: bool, c: bool)
    requires ReadBlob(l, data, o1, l.manifestSignature) == if a then Some((e.manifestSignature, o2)) else None
    requires ReadSignatureSection(l, data, o2) == if b then Some((e.signatures, o3)) else None
    requires ReadBlob(l, data, o3, l.payload) == if c then Some((e.payload, |data|)) else None
    requires o1 <= |data|
    ensures ParseTail(l, data, e.head, e.manifest, o1) == if a && b && c then Some(Parsed(e, data[..o1])) else None
  {
  }

  lemma TailInvert(l: Limits, data: seq<Byte>, head: Head, manifest: seq<Byte>, o1: nat) returns (o2: nat, o3: nat)
    requires ParseTail(l, data, head, manifest, o1).Some?
    ensures var p := ParseTail(l, data, head, manifest, o1).value;
            && o1 <= |data| && p.signedRegion == data[..o1]
            && p.envelope.head == head && p.envelope.manifest == manifest
            && ReadBlob(l, data, o1, l.manifestSignature) == Some((p.envelope.manifestSignature, o2))
            && ReadSignatureSection(l, data, o2) == Some((p.envelope.signatures, o3))
            && ReadBlob(l, data, o3, l.payload) == Some((p.envelope.payload, |data|))
  {
    o2 := ReadBlob(l, data, o1, l.manifestSignature).value.1;
    o3 := ReadSignatureSection(l, data, o2).value.1;
  }

  /** The format is canonical: bytes the client accepts are the bytes the packer writes for what was read. */
  lemma BuildParse(l: Limits, data: seq<Byte>)
    requires Parse(l, data).Some?
    ensures var p := Parse(l, data).value;
            Sized(p.envelope) && Build(p.envelope) == data && p.signedRegion == SignedRegion(p.envelope)
  {
    var p := Parse(l, data).value;
    var e := p.envelope;
    var o1 := ReadBlob(l, data, 27, l.manifest).value.1;
    var o2, o3 := TailInvert(l, data, ReadHead(data).value, ReadBlob(l, data, 27, l.manifest).value.0, o1);
    HeadCanonical(data);
    BlobCanonical(l, data, 27, l.manifest);
    BlobCanonical(l, data, o1, l.manifestSignature);
    SectionCanonical(l, data, o2);
    BlobCanonical(l, data, o3, l.payload);
    PiecesMakeBuild(data, e, o1, o2, o3);
  }

  lemma PiecesMakeBuild(data: seq<Byte>, e: Envelope, o1: nat, o2: nat, o3: nat)
    requires Holds(data, 0, HeadBytes(e.head)) && Holds(data, 27, Blob(e.manifest)) && o1 == 27 + |Blob(e.manifest)|
    requires Holds(data, o1, Blob(e.manifestSignature)) && o2 == o1 + |Blob(e.manifestSignature)|
    requires Holds(data, o2, SignatureSection(e.signatures)) && o3 == o2 + |SignatureSection(e.signatures)|
    requires Holds(data, o3, Blob(e.payload)) && |data| == o3 + |Blob(e.payload)|
    ensures Build(e) == data && data[..o1] == SignedRegion(e)
  {
    JoinSlices(data, 0, HeadBytes(e.head), Blob(e.manifest));
    FourJoin(data, SignedRegion(e), Blob(e.manifestSignature), SignatureSection(e.signatures), Blob(e.payload));
  }

  lemma FourJoin<T>(s: seq<T>, a: seq<T>, b: seq<T>, c: seq<T>, d: seq<T>)
    requires Holds(s, 0, a) && Holds(s, |a|, b) && Holds(s, |a| + |b|, c) && Holds(s, |a| + |b| + |c|, d)
    requires |s| == |a| + |b| + |c| + |d|
    ensures s == a + b + c + d
  {
    JoinSlices(s, 0, a, b);
    JoinSlices(s, 0, a + b, c);
    JoinSlices(s, 0, a + b + c, d);
  }

  /** Unique decoding: with 32-bit sizes the bytes determine every field. */
  lemma BuildInjective(e: Envelope, e': Envelope)
    requires Sized(e) && Sized(e') && Build(e) == Build(e')
    ensures e == e'
  {
    ParseBuild(UNLIMITED, e);
    ParseBuild(UNLIMITED, e');
  }

  /** Where the parts of the head stand. */
  lemma HeadLayout(h: Head)
    ensures var b := HeadBytes(h);
            && b[..8] == [0x54, 0x44, 0x55, 0x50, 2, 0, 0, 0]
            && b[8..11] == [h.channel.Code(), h.os.Code(), h.arch.Code()]
            && b[11..19] == Le64(h.version)
            && b[19..] == Le64(if h.created < 0 then 0x1_0000_0000_0000_0000 + h.created else h.created)
  {
    Le32Bytes(FORMAT);
  }

  /** What the client reads of what was written: no empty field, and none beyond its caps. */
  lemma ClientCaps(e: Envelope)
    requires Sized(e)
    ensures Parse(CLIENT, Build(e)).Some? <==>
              && 1 <= |e.manifest| <= 262_144 && 1 <= |e.manifestSignature| <= 256 && |e.signatures| <= 16
              && (forall i | 0 <= i < |e.signatures| ::
                    1 <= |e.signatures[i].keyId| <= 64 && 1 <= |e.signatures[i].bytes| <= 512)
              && 1 <= |e.payload| <= 268_435_456
  {
    ParseBuild(CLIENT, e);
    forall i | 0 <= i < |e.signatures|
      ensures SignatureFilter(CLIENT)(e.signatures[i]) <==>
                1 <= |e.signatures[i].keyId| <= 64 && 1 <= |e.signatures[i].bytes| <= 512
    {
    }
  }

  // ---------- re-signing ----------

  /** signedRegion || hash(payload), with the hash as a parameter. */
  function SigningInput(p: Parsed, hash: seq<Byte> -> seq<Byte>): seq<Byte> {
    p.signedRegion + hash(p.envelope.payload)
  }

  datatype EmbedError = BadEnvelope | AlreadySigned | WrongChannel | NoSignatures

  datatype Embedded = Embedded(bytes: seq<Byte>) | Refused(error: EmbedError)

  /** Adding external signatures to an unsigned file, up to the final verification. */
  method EmbedV2Signatures(bytes: seq<Byte>, channel: Option<Channel>, signatures: seq<Signature>)
    returns (r: Embedded)
    ensures r == EmbedResult(bytes, channel, signatures)
  {
    var parsed := ParseEnvelope(bytes);
    if parsed == None {
      return Refused(BadEnvelope);
    }
    var e := parsed.value.envelope;
    if |e.signatures| > 0 {
      return Refused(AlreadySigned);
    } else if channel.Some? && channel.value != e.head.channel {
      return Refused(WrongChannel);
    }
    if |signatures| == 0 {
      return Refused(NoSignatures);
    }
    var result := BuildV2Envelope(e.(signatures := signatures));
    r := Embedded(result);
  }

  function EmbedResult(bytes: seq<Byte>, channel: Option<Channel>, signatures: seq<Signature>): Embedded {
    match Parse(CLIENT, bytes)
    case None => Refused(BadEnvelope)
    case Some(p) =>
      if |p.envelope.signatures| > 0 then Refused(AlreadySigned)
      else if channel.Some? && channel.value != p.envelope.head.channel then Refused(WrongChannel)
      else if |signatures| == 0 then Refused(NoSignatures)
      else Embedded(Build(p.envelope.(signatures := signatures)))
  }

  /** What is signed is the head, the manifest and the hash of the payload. */
  lemma SigningInputIs(e: Envelope, hash: seq<Byte> -> seq<Byte>)
    requires Sized(e) && AcceptsEnvelope(CLIENT, e)
    ensures Parse(CLIENT, Build(e)).Some?
    ensures SigningInput(Parse(CLIENT, Build(e)).value, hash) == HeadBytes(e.head) + Blob(e.manifest) + hash(e.payload)
  {
    ParseBuild(CLIENT, e);
  }

  /** A file is refused if it cannot be read, and one that can by the first of three reasons that applies. */
  lemma RefusedWhen(e: Envelope, channel: Option<Channel>, signatures: seq<Signature>)
    requires Sized(e) && AcceptsEnvelope(CLIENT, e)
    ensures var r := EmbedResult(Build(e), channel, signatures);
            var other := channel.Some? && channel.value != e.head.channel;
            && (r == Refused(AlreadySigned) <==> e.signatures != [])
            && (r == Refused(WrongChannel) <==> e.signatures == [] && other)
            && (r == Refused(NoSignatures) <==> e.signatures == [] && !other && signatures == [])
            && (r.Embedded? <==> e.signatures == [] && !other && signatures != [])
    ensures forall bytes | Parse(CLIENT, bytes) == None ::
              EmbedResult(bytes, channel, signatures) == Refused(BadEnvelope)
  {
    ParseBuild(CLIENT, e);
  }

  /** The bytes before and after the signature section of an unsigned file. */
  ghost function Before(e: Envelope): seq<Byte> {
    SignedRegion(e) + Blob(e.manifestSignature)
  }

  /**
   * Embedding replaces the empty signature section and nothing else. The client reads the result if and only if
   * the added signatures are within its caps, and then it finds the old fields, the new signatures, and the very
   * bytes the signatures were made over.
   */
  lemma EmbeddingKeepsTheRest(bytes: seq<Byte>, channel: Option<Channel>, signatures: seq<Signature>)
    requires |signatures| <= 0xffff_ffff && SizedSignatures(signatures)
    requires EmbedResult(bytes, channel, signatures).Embedded?
    ensures var p := Parse(CLIENT, bytes).value;
            var result := EmbedResult(bytes, channel, signatures).bytes;
            && bytes == Before(p.envelope) + SignatureSection([]) + Blob(p.envelope.payload)
            && result == Before(p.envelope) + SignatureSection(signatures) + Blob(p.envelope.payload)
            && Parse(CLIENT, result)
               == if |signatures| <= CLIENT.signatures && AcceptsSignatures(CLIENT, signatures)
                  then Some(Parsed(p.envelope.(signatures := signatures), p.signedRegion)) else None
  {
    var p := Parse(CLIENT, bytes).value;
    BuildParse(CLIENT, bytes);
    ParseBuild(CLIENT, p.envelope);
    ParseBuild(CLIENT, p.envelope.(signatures := signatures));
    assert p.envelope.signatures == [];
  }

  /** So whatever the hash, the input that was signed is the input the client verifies. */
  lemma SameSigningInput(bytes: seq<Byte>, channel: Option<Channel>, signatures: seq<Signature>,
                         hash: seq<Byte> -> seq<Byte>)
    requires |signatures| <= CLIENT.signatures && AcceptsSignatures(CLIENT, signatures)
    requires EmbedResult(bytes, channel, signatures).Embedded?
    ensures Parse(CLIENT, EmbedResult(bytes, channel, signatures).bytes).Some?
    ensures SigningInput(Parse(CLIENT, EmbedResult(bytes, channel, signatures).bytes).value, hash)
         == SigningInput(Parse(CLIENT, bytes).value, hash)
  {
    assert SizedSignatures(signatures);
    EmbeddingKeepsTheRest(bytes, channel, signatures);
  }

  // ---------- the reader as the client runs it ----------

  class Reader {
    const data: seq<Byte>
    var offset: nat

    constructor (data: seq<Byte>)
      ensures this.data == data && offset == 0
    {
      this.data := data;
      offset := 0;
    }

    method ReadU32Next() returns (r: Option<Uint32>)
      modifies this
      ensures r == ReadU32(data, old(offset))
      ensures offset == if r.Some? then old(offset) + 4 else old(offset)
    {
      if offset + 4 > |data| {
        return None;
      }
      r := Some(U32At(data, offset));
      offset := offset + 4;
    }

    method ReadBlobNext(l: Limits, max: nat) returns (r: Option<seq<Byte>>)
      modifies this
      ensures match ReadBlob(l, data, old(offset), max)
              case None => r == None
              case Some((bytes, end)) => r == Some(bytes) && offset == end
    {
      var length := ReadU32Next();
      if length == None || !Accepts(l, length.value, max) {
        return None;
      }
      if length.value > |data| - offset {
        return None;
      }
      r := Some(data[offset..offset + length.value]);
      offset := offset + length.value;
    }

    method ReadSignatureNext(l: Limits) returns (r: Option<Signature>)
      modifies this
      ensures match ReadSignature(l, data, old(offset))
              case None => r == None
              case Some((s, end)) => r == Some(s) && offset == end
    {
      var keyId := ReadBlobNext(l, l.keyId);
      if keyId == None {
        return None;
      }
      var bytes := ReadBlobNext(l, l.signature);
      if bytes == None {
        return None;
      }
      r := Some(Signature(keyId.value, bytes.value));
    }

    method ReadSignaturesNext(l: Limits) returns (r: Option<seq<Signature>>)
      modifies this
      ensures match ReadSignatureSection(l, data, old(offset))
              case None => r == None
              case Some((signatures, end)) => r == Some(signatures) && offset == end
    {
      var count := ReadU32Next();
      if count == None || count.value > l.signatures {
        return None;
      }
      ghost var start := offset;
      var signatures: seq<Signature> := [];
      PrependNothing(ReadSignatures(l, data, start, count.value));
      for i := 0 to count.value
        invariant Prepended(signatures, ReadSignatures(l, data, offset, count.value - i))
               == ReadSignatures(l, data, start, count.value)
      {
        var s := ReadSignatureNext(l);
        if s == None {
          return None;
        }
        PrependOne(signatures, s.value, ReadSignatures(l, data, offset, count.value - i - 1));
        signatures := signatures + [s.value];
      }
      assert signatures + [] == signatures;
      r := Some(signatures);
    }
  }

  method ParseEnvelope(data: seq<Byte>) returns (r: Option<Parsed>)
    ensures r == Parse(CLIENT, data)
  {
    var head := ReadHead(data);
    if head == None { return None; }
    var reader := new Reader(data);
    reader.offset := 27;
    var manifest := reader.ReadBlobNext(CLIENT, CLIENT.manifest);
    if manifest == None { return None; }
    var signedRegion := data[..reader.offset];
    var manifestSignature := reader.ReadBlobNext(CLIENT, CLIENT.manifestSignature);
    if manifestSignature == None { return None; }
    var signatures := reader.ReadSignaturesNext(CLIENT);
    if signatures == None { return None; }
    var payload := reader.ReadBlobNext(CLIENT, CLIENT.payload);
    if payload == None || reader.offset != |data| { return None; }
    r := Some(Parsed(
      Envelope(head.value, manifest.value, manifestSignature.value, signatures.value, payload.value), signedRegion));
  }
}
