/** Bounded encodings, fixed-size packing, and what a run over the packed chunks ends with. */
module Transfer {
  import opened Wrappers
  import Base64

  const MAX_DOCUMENT_BYTES: nat := 1024 * 1024
  const MAX_CHUNK_BYTES: nat := 8 * 1024
  const MAX_RPC_BYTES: nat := 16 * 1024
  const MAX_CHUNKS: nat := 256

  datatype Error =
    | InvalidLimits | InvalidBytes | InvalidJson | InvalidEncoding | SizeMismatch | DigestMismatch
    | InvalidEnvelope | EnvelopeTooLarge | TooManyChunks

  type Digest = seq<byte> -> string

  predicate HexDigest(text: string) {
    |text| == 64 && forall i :: 0 <= i < |text| ==> '0' <= text[i] <= '9' || 'a' <= text[i] <= 'f'
  }

  /** A digest text is 64 of the sixteen lower-case hexadecimal digits. */
  lemma DigestMeans(text: string)
    ensures HexDigest(text) <==> |text| == 64 && forall c :: c in text ==> c in "0123456789abcdef"
  {
    forall c: char ensures ('0' <= c <= '9' || 'a' <= c <= 'f') <==> c in "0123456789abcdef" {
      HexMeans(c);
    }
    if HexDigest(text) {
      forall c | c in text ensures c in "0123456789abcdef" {
        var i :| 0 <= i < |text| && text[i] == c;
      }
    }
    if forall c :: c in text ==> c in "0123456789abcdef" {
      forall i | 0 <= i < |text| ensures '0' <= text[i] <= '9' || 'a' <= text[i] <= 'f' {
        assert text[i] in text;
      }
    }
  }

  lemma HexMeans(c: char)
    ensures ('0' <= c <= '9' || 'a' <= c <= 'f') <==> c in "0123456789abcdef"
  {
    var digits := "0123456789abcdef";
    if '0' <= c <= '9' { assert digits[c as int - '0' as int] == c; }
    if 'a' <= c <= 'f' { assert digits[10 + (c as int - 'a' as int)] == c; }
  }

  /** The digest always prints as 64 lower-case hexadecimal characters. */
  ghost predicate Prints(sha: Digest) {
    forall raw :: HexDigest(sha(raw))
  }

  datatype Encoded = Encoded(size: nat, sha256: string, text: string)

  function EncodeBytes(raw: seq<byte>, sha: Digest, max: int): Result<Encoded, Error> {
    if !(1 <= max <= MAX_DOCUMENT_BYTES) then Err(InvalidLimits)
    else if !(1 <= |raw| <= max) then Err(InvalidBytes)
    else Ok(Encoded(|raw|, sha(raw), Base64.Encode(raw)))
  }

  function DecodeBytes(text: string, size: int, sha256: string, sha: Digest, max: int): Result<seq<byte>, Error> {
    if !(1 <= max <= MAX_DOCUMENT_BYTES) then Err(InvalidLimits)
    else if !(1 <= size <= max) || !HexDigest(sha256) || text == "" || |text| > 4 * ((max + 2) / 3) then
      Err(InvalidEncoding)
    else
      match Base64.Strict(text)
      case None => Err(InvalidEncoding)
      case Some(raw) =>
        if |raw| != size then Err(SizeMismatch)
        else if sha(raw) != sha256 then Err(DigestMismatch)
        else Ok(raw)
  }

  /**
   Decoding succeeds on exactly the encoder's outputs for the same bytes and limit; in
   particular the length check made before decoding never refuses a valid encoding.
   */
  lemma DecodeInvertsEncode(raw: seq<byte>, encoded: Encoded, sha: Digest, max: int)
    requires Prints(sha)
    ensures DecodeBytes(encoded.text, encoded.size, encoded.sha256, sha, max) == Ok(raw)
       <==> EncodeBytes(raw, sha, max) == Ok(encoded)
  {
    Base64.StrictIsCanonical(encoded.text, raw);
    Base64.EncodedLength(raw);
    assert HexDigest(sha(raw));
    if encoded.text == Base64.Encode(raw) && 1 <= max <= MAX_DOCUMENT_BYTES && 1 <= |raw| <= max {
      assert (|raw| + 2) / 3 <= (max + 2) / 3;
    }
  }

  /** Before anything is compared: which limit, which text and which stated size or digest is refused. */
  lemma DecodeRefuses(text: string, size: int, sha256: string, sha: Digest, max: int)
    ensures DecodeBytes(text, size, sha256, sha, max) == Err(InvalidLimits) <==> max < 1 || max > 1048576
    ensures DecodeBytes(text, size, sha256, sha, max) == Err(InvalidEncoding) <==>
      && 1 <= max <= 1048576
      && (|| size < 1 || size > max || !HexDigest(sha256) || text == "" || |text| > 4 * ((max + 2) / 3)
          || forall raw :: text != Base64.Encode(raw))
  {
    if Base64.Strict(text).Some? { Base64.StrictIsCanonical(text, Base64.Strict(text).value); }
    forall raw | text == Base64.Encode(raw) ensures Base64.Strict(text) == Some(raw) {
      Base64.StrictIsCanonical(text, raw);
    }
  }

  /** Otherwise the text is compared: its length first, then its digest. */
  lemma DecodeCompares(raw: seq<byte>, size: int, sha256: string, sha: Digest, max: int)
    requires 1 <= size <= max <= 1048576 && HexDigest(sha256) && 0 < |Base64.Encode(raw)| <= 4 * ((max + 2) / 3)
    ensures DecodeBytes(Base64.Encode(raw), size, sha256, sha, max) ==
      if |raw| != size then Err(SizeMismatch) else if sha(raw) != sha256 then Err(DigestMismatch) else Ok(raw)
  {
    Base64.StrictIsCanonical(Base64.Encode(raw), raw);
  }

  // ---------------------------------------------------------------- packing

  datatype Chunk = Chunk(seqNo: nat, offset: nat, payload: Encoded)

  datatype Envelopes = Envelopes(client: seq<byte>, queued: seq<byte>)

  datatype Packed = Packed(chunk: Chunk, envelopes: Envelopes)

  datatype Plan = Plan(size: nat, sha256: string, chunks: seq<Packed>)

  // What packing is given: digest, strict JSON test, and a builder that may refuse.
  datatype Tools = Tools(sha: Digest, json: seq<byte> -> bool, build: Chunk -> Option<Envelopes>)

  datatype Limits = Limits(chunk: int, rpc: int, document: int, chunks: int)

  predicate Sound(limits: Limits) {
    && 1 <= limits.chunk <= MAX_CHUNK_BYTES && 1 <= limits.rpc <= MAX_RPC_BYTES
    && 1 <= limits.document <= MAX_DOCUMENT_BYTES && 1 <= limits.chunks <= MAX_CHUNKS
  }

  function Pieces(size: nat, step: nat): nat
    requires step > 0
  {
    (size + step - 1) / step
  }

  function Piece(raw: seq<byte>, step: nat, i: nat): seq<byte>
    requires step > 0 && i < Pieces(|raw|, step)
  {
    PieceBounds(|raw|, step, i);
    raw[i * step..if (i + 1) * step <= |raw| then (i + 1) * step else |raw|]
  }

  lemma PieceBounds(size: nat, step: nat, i: nat)
    requires step > 0 && i < Pieces(size, step)
    ensures i * step < size && (i + 1) * step == i * step + step
    ensures i + 1 == Pieces(size, step) <==> size <= (i + 1) * step
  {
    var n := Pieces(size, step);
    DivBounds(size + step - 1, step);
    OneMore(n - 1, step);
    OneMore(i, step);
    MulMonotone(i, n - 1, step);
    if i + 1 < n { MulMonotone(i + 1, n - 1, step); }
  }

  lemma DivBounds(x: nat, d: nat)
    requires d > 0
    ensures x / d * d <= x < x / d * d + d
  {
  }

  lemma OneMore(k: int, step: nat)
    ensures (k + 1) * step == k * step + step
  {
  }

  lemma {:induction false} MulMonotone(a: nat, b: nat, step: nat)
    requires a <= b
    ensures a * step <= b * step
  {
    assert b * step - a * step == (b - a) * step;
  }

  function ChunkAt(raw: seq<byte>, sha: Digest, step: nat, i: nat): Chunk
    requires step > 0 && i < Pieces(|raw|, step)
  {
    var piece := Piece(raw, step, i);
    Chunk(i, i * step, Encoded(|piece|, sha(piece), Base64.Encode(piece)))
  }

  /** Both envelopes of one chunk are within the request limit and strict JSON. */
  predicate Carries(tools: Tools, rpc: int, envelopes: Envelopes) {
    && 1 <= |envelopes.client| <= rpc && tools.json(envelopes.client)
    && 1 <= |envelopes.queued| <= rpc && tools.json(envelopes.queued)
  }

  predicate Packable(tools: Tools, rpc: int, chunk: Chunk) {
    tools.build(chunk).Some? && Carries(tools, rpc, tools.build(chunk).value)
  }

  /** A plan holds every fixed piece, in order, each with its accepted envelopes. */
  ghost predicate Planned(raw: seq<byte>, tools: Tools, limits: Limits, plan: Plan) {
    && Sound(limits) && 1 <= |raw| <= limits.document && tools.json(raw)
    && plan.size == |raw| && plan.sha256 == tools.sha(raw)
    && |plan.chunks| == Pieces(|raw|, limits.chunk) <= limits.chunks
    && PackedUpTo(raw, tools, limits, plan.chunks, |plan.chunks|)
  }

  ghost predicate PackedUpTo(raw: seq<byte>, tools: Tools, limits: Limits, chunks: seq<Packed>, n: nat)
    requires Sound(limits)
  {
    && n == |chunks| <= Pieces(|raw|, limits.chunk)
    && forall i :: 0 <= i < n ==>
         && chunks[i].chunk == ChunkAt(raw, tools.sha, limits.chunk, i)
         && Packable(tools, limits.rpc, chunks[i].chunk)
         && tools.build(chunks[i].chunk) == Some(chunks[i].envelopes)
  }

  /** What is wrong with the document and limits as a whole, in the order it is looked for. */
  function WholeFault(raw: seq<byte>, tools: Tools, limits: Limits): Option<Error> {
    if !(1 <= limits.document <= MAX_DOCUMENT_BYTES) then Some(InvalidLimits)
    else if !(1 <= |raw| <= limits.document) then Some(InvalidBytes)
    else if !tools.json(raw) then Some(InvalidJson)
    else if !Sound(limits) then Some(InvalidLimits)
    else if Pieces(|raw|, limits.chunk) > limits.chunks then Some(TooManyChunks)
    else None
  }

  function EnvelopeFault(tools: Tools, rpc: int, envelope: seq<byte>): Option<Error> {
    if |envelope| > rpc then Some(EnvelopeTooLarge)
    else if envelope == [] || !tools.json(envelope) then Some(InvalidEnvelope)
    else None
  }

  /** What is wrong with one chunk: no envelopes, then the client's, then the queued one. */
  function ChunkFault(tools: Tools, rpc: int, chunk: Chunk): Option<Error> {
    match tools.build(chunk)
    case None => Some(InvalidEnvelope)
    case Some(envelopes) =>
      var client := EnvelopeFault(tools, rpc, envelopes.client);
      if client.Some? then client else EnvelopeFault(tools, rpc, envelopes.queued)
  }

  /** The error is that of the whole, or else of the first piece that cannot be packed. */
  ghost predicate FirstFault(raw: seq<byte>, tools: Tools, limits: Limits, error: Error) {
    || WholeFault(raw, tools, limits) == Some(error)
    || (&& WholeFault(raw, tools, limits) == None
        && exists k :: 0 <= k < Pieces(|raw|, limits.chunk) && FaultAt(raw, tools, limits, k, error))
  }

  /** Limits within those of the protocol, and a nonempty strict JSON document within its own. */
  ghost predicate WholeInOrder(raw: seq<byte>, tools: Tools, limits: Limits) {
    && 1 <= limits.chunk <= 8192 && 1 <= limits.rpc <= 16384
    && 1 <= limits.document <= 1048576 && 1 <= limits.chunks <= 256
    && 1 <= |raw| <= limits.document && tools.json(raw)
    && |raw| <= limits.chunks * limits.chunk
  }

  ghost predicate InOrder(tools: Tools, rpc: int, envelope: seq<byte>) {
    1 <= |envelope| <= rpc && tools.json(envelope)
  }

  ghost function Part(raw: seq<byte>, from: nat, step: nat): seq<byte>
    requires from <= |raw|
  {
    if from + step <= |raw| then raw[from..][..step] else raw[from..]
  }

  /** The chunk of fixed size that begins at this multiple of the chunk size, or what is left of the document. */
  ghost function Cut(raw: seq<byte>, tools: Tools, step: nat, i: nat): Chunk
    requires i * step < |raw|
  {
    var part := Part(raw, i * step, step);
    Chunk(i, i * step, Encoded(|part|, tools.sha(part), Base64.Encode(part)))
  }

  ghost predicate ChunkInOrder(tools: Tools, rpc: int, chunk: Chunk) {
    && tools.build(chunk).Some?
    && InOrder(tools, rpc, tools.build(chunk).value.client) && InOrder(tools, rpc, tools.build(chunk).value.queued)
  }

  /** The first chunk that is not in order, if the earlier ones are. */
  ghost predicate FirstBad(raw: seq<byte>, tools: Tools, limits: Limits, k: nat) {
    && WholeInOrder(raw, tools, limits) && k * limits.chunk < |raw|
    && !ChunkInOrder(tools, limits.rpc, Cut(raw, tools, limits.chunk, k))
    && forall i: nat :: i < k && i * limits.chunk < |raw| ==>
         ChunkInOrder(tools, limits.rpc, Cut(raw, tools, limits.chunk, i))
  }

  /** One envelope of the first bad chunk is over the limit, and the client's, if it is not that one, is in order. */
  ghost predicate TooLarge(tools: Tools, rpc: int, chunk: Chunk) {
    && tools.build(chunk).Some?
    && var envelopes := tools.build(chunk).value;
       || |envelopes.client| > rpc
       || (InOrder(tools, rpc, envelopes.client) && |envelopes.queued| > rpc)
  }

  /** Why a document is refused, each reason only when no earlier one holds. */
  ghost predicate RefusedFor(raw: seq<byte>, tools: Tools, limits: Limits, error: Error) {
    var document := 1 <= limits.document <= 1048576;
    match error
    case InvalidLimits =>
      !document || (1 <= |raw| <= limits.document && tools.json(raw)
                    && !(1 <= limits.chunk <= 8192 && 1 <= limits.rpc <= 16384 && 1 <= limits.chunks <= 256))
    case InvalidBytes => document && !(1 <= |raw| <= limits.document)
    case InvalidJson => document && 1 <= |raw| <= limits.document && !tools.json(raw)
    case TooManyChunks =>
      && document && 1 <= |raw| <= limits.document && tools.json(raw)
      && 1 <= limits.chunk <= 8192 && 1 <= limits.rpc <= 16384 && 1 <= limits.chunks <= 256
      && |raw| > limits.chunks * limits.chunk
    case EnvelopeTooLarge =>
      exists k :: FirstBad(raw, tools, limits, k) && TooLarge(tools, limits.rpc, Cut(raw, tools, limits.chunk, k))
    case InvalidEnvelope =>
      exists k :: FirstBad(raw, tools, limits, k) && !TooLarge(tools, limits.rpc, Cut(raw, tools, limits.chunk, k))
    case _ => false
  }

  lemma CutIsPiece(raw: seq<byte>, tools: Tools, limits: Limits, i: nat)
    requires Sound(limits) && i * limits.chunk < |raw|
    ensures i < Pieces(|raw|, limits.chunk)
    ensures Cut(raw, tools, limits.chunk, i) == ChunkAt(raw, tools.sha, limits.chunk, i)
  {
    OffsetIsPiece(|raw|, limits.chunk, i);
    OneMore(i, limits.chunk);
    PieceBounds(|raw|, limits.chunk, i);
    PartIs(raw, i * limits.chunk, limits.chunk);
  }

  lemma PartIs(raw: seq<byte>, from: nat, step: nat)
    requires from <= |raw|
    ensures Part(raw, from, step) == raw[from..if from + step <= |raw| then from + step else |raw|]
  {
  }

  lemma FewEnough(size: nat, step: nat, chunks: nat)
    requires step > 0
    ensures Pieces(size, step) <= chunks <==> size <= chunks * step
  {
    OffsetIsPiece(size, step, chunks);
  }

  /** The first fault is the reason of refusal. */
  lemma FaultMeans(raw: seq<byte>, tools: Tools, limits: Limits, error: Error)
    requires FirstFault(raw, tools, limits, error)
    ensures RefusedFor(raw, tools, limits, error)
  {
    if Sound(limits) { FewEnough(|raw|, limits.chunk, limits.chunks); }
    if WholeFault(raw, tools, limits) == None {
      var k :| 0 <= k < Pieces(|raw|, limits.chunk) && FaultAt(raw, tools, limits, k, error);
      OffsetIsPiece(|raw|, limits.chunk, k);
      FaultIsFirstBad(raw, tools, limits, k, error);
    }
  }

  lemma FaultIsFirstBad(raw: seq<byte>, tools: Tools, limits: Limits, k: nat, error: Error)
    requires WholeInOrder(raw, tools, limits) && Sound(limits) && k < Pieces(|raw|, limits.chunk)
    requires k * limits.chunk < |raw| && FaultAt(raw, tools, limits, k, error)
    ensures FirstBad(raw, tools, limits, k) && (error == EnvelopeTooLarge || error == InvalidEnvelope)
    ensures error == EnvelopeTooLarge <==> TooLarge(tools, limits.rpc, Cut(raw, tools, limits.chunk, k))
  {
    CutIsPiece(raw, tools, limits, k);
    forall i: nat | i < k && i * limits.chunk < |raw|
      ensures ChunkInOrder(tools, limits.rpc, Cut(raw, tools, limits.chunk, i))
    {
      CutIsPiece(raw, tools, limits, i);
    }
  }

  /** Packing succeeds exactly when the whole and every chunk are in order. */
  lemma PackMeans(raw: seq<byte>, tools: Tools, limits: Limits)
    ensures CanPack(raw, tools, limits) <==>
      && WholeInOrder(raw, tools, limits)
      && forall i: nat :: i * limits.chunk < |raw| ==>
           ChunkInOrder(tools, limits.rpc, Cut(raw, tools, limits.chunk, i))
  {
    if Sound(limits) {
      FewEnough(|raw|, limits.chunk, limits.chunks);
      forall i: nat
        ensures i < Pieces(|raw|, limits.chunk) <==> i * limits.chunk < |raw|
        ensures i * limits.chunk < |raw| ==>
          Cut(raw, tools, limits.chunk, i) == ChunkAt(raw, tools.sha, limits.chunk, i)
      {
        OffsetIsPiece(|raw|, limits.chunk, i);
        if i * limits.chunk < |raw| { CutIsPiece(raw, tools, limits, i); }
      }
    }
  }

  /** Everything about the document, the limits and every single piece is in order. */
  ghost predicate CanPack(raw: seq<byte>, tools: Tools, limits: Limits) {
    && Sound(limits) && 1 <= |raw| <= limits.document && tools.json(raw)
    && Pieces(|raw|, limits.chunk) <= limits.chunks
    && forall i :: 0 <= i < Pieces(|raw|, limits.chunk) ==>
      Packable(tools, limits.rpc, ChunkAt(raw, tools.sha, limits.chunk, i))
  }

  ghost predicate FaultAt(raw: seq<byte>, tools: Tools, limits: Limits, k: nat, error: Error)
    requires Sound(limits) && k < Pieces(|raw|, limits.chunk)
  {
    && ChunkFault(tools, limits.rpc, ChunkAt(raw, tools.sha, limits.chunk, k)) == Some(error)
    && forall i :: 0 <= i < k ==> Packable(tools, limits.rpc, ChunkAt(raw, tools.sha, limits.chunk, i))
  }

  /** A chunk can be packed exactly when nothing is wrong with it. */
  lemma PackableHasNoFault(tools: Tools, rpc: int, chunk: Chunk)
    ensures Packable(tools, rpc, chunk) <==> ChunkFault(tools, rpc, chunk).None?
  {
  }

  /** Builds and checks the envelopes of one chunk. */
  method PackOne(tools: Tools, rpc: int, chunk: Chunk) returns (r: Result<Packed, Error>)
    ensures r.Ok? <==> Packable(tools, rpc, chunk)
    ensures r.Ok? ==> r.value.chunk == chunk && tools.build(chunk) == Some(r.value.envelopes)
    ensures r.Err? ==> ChunkFault(tools, rpc, chunk) == Some(r.error)
  {
    var built := tools.build(chunk);
    if built.None? { return Err(InvalidEnvelope); }
    var client := EnvelopeFault(tools, rpc, built.value.client);
    if client.Some? { return Err(client.value); }
    var queued := EnvelopeFault(tools, rpc, built.value.queued);
    if queued.Some? { return Err(queued.value); }
    r := Ok(Packed(chunk, built.value));
  }

  /** Piece numbers and offsets march together. */
  lemma OffsetIsPiece(size: nat, step: nat, i: nat)
    requires step > 0
    ensures i * step < size <==> i < Pieces(size, step)
  {
    var n := Pieces(size, step);
    DivBounds(size + step - 1, step);
    if i < n {
      OneMore(n - 1, step);
      MulMonotone(i, n - 1, step);
    } else {
      MulMonotone(n, i, step);
    }
  }

  /** The chunk at an offset is the fixed piece of that number, and the next offset is the next piece's. */
  lemma NextPiece(raw: seq<byte>, sha: Digest, limits: Limits, i: nat, offset: nat)
    requires Sound(limits) && offset == i * limits.chunk && offset < |raw|
    ensures i < Pieces(|raw|, limits.chunk)
    ensures var end := if offset + limits.chunk <= |raw| then offset + limits.chunk else |raw|;
      && 1 <= end - offset <= limits.chunk
      && ChunkAt(raw, sha, limits.chunk, i)
         == Chunk(i, offset, Encoded(end - offset, sha(raw[offset..end]), Base64.Encode(raw[offset..end])))
    ensures offset + limits.chunk == (i + 1) * limits.chunk
    ensures offset + limits.chunk < |raw| <==> i + 1 < Pieces(|raw|, limits.chunk)
  {
    OneMore(i, limits.chunk);
    OffsetIsPiece(|raw|, limits.chunk, i);
    OffsetIsPiece(|raw|, limits.chunk, i + 1);
  }

  lemma PackedOneMore(raw: seq<byte>, tools: Tools, limits: Limits, chunks: seq<Packed>, packed: Packed)
    requires Sound(limits) && |chunks| < Pieces(|raw|, limits.chunk)
    requires PackedUpTo(raw, tools, limits, chunks, |chunks|)
    requires packed.chunk == ChunkAt(raw, tools.sha, limits.chunk, |chunks|)
    requires Packable(tools, limits.rpc, packed.chunk) && tools.build(packed.chunk) == Some(packed.envelopes)
    ensures PackedUpTo(raw, tools, limits, chunks + [packed], |chunks| + 1)
  {
  }

  lemma PieceFails(raw: seq<byte>, tools: Tools, limits: Limits, chunks: seq<Packed>, error: Error)
    requires WholeFault(raw, tools, limits) == None && |chunks| < Pieces(|raw|, limits.chunk)
    requires PackedUpTo(raw, tools, limits, chunks, |chunks|)
    requires ChunkFault(tools, limits.rpc, ChunkAt(raw, tools.sha, limits.chunk, |chunks|)) == Some(error)
    ensures FirstFault(raw, tools, limits, error)
  {
    forall i | 0 <= i < |chunks| ensures Packable(tools, limits.rpc, ChunkAt(raw, tools.sha, limits.chunk, i)) {
      assert chunks[i].chunk == ChunkAt(raw, tools.sha, limits.chunk, i);
    }
    assert FaultAt(raw, tools, limits, |chunks|, error);
  }

  method PackPieces(raw: seq<byte>, tools: Tools, limits: Limits) returns (r: Result<seq<Packed>, Error>)
    requires WholeFault(raw, tools, limits) == None
    ensures r.Ok? ==>
      |r.value| == Pieces(|raw|, limits.chunk) && PackedUpTo(raw, tools, limits, r.value, |r.value|)
    ensures r.Err? ==> FirstFault(raw, tools, limits, r.error)
  {
    var chunks: seq<Packed>, offset := [], 0;
    while offset < |raw|
      invariant offset == |chunks| * limits.chunk
      invariant PackedUpTo(raw, tools, limits, chunks, |chunks|)
      invariant offset < |raw| <==> |chunks| < Pieces(|raw|, limits.chunk)
      decreases |raw| - offset
    {
      NextPiece(raw, tools.sha, limits, |chunks|, offset);
      var end := if offset + limits.chunk <= |raw| then offset + limits.chunk else |raw|;
      var payload := EncodeBytes(raw[offset..end], tools.sha, limits.chunk);
      var packed := PackOne(tools, limits.rpc, Chunk(|chunks|, offset, payload.value));
      if packed.Err? {
        PieceFails(raw, tools, limits, chunks, packed.error);
        return Err(packed.error);
      }
      PackedOneMore(raw, tools, limits, chunks, packed.value);
      chunks, offset := chunks + [packed.value], offset + limits.chunk;
    }
    r := Ok(chunks);
  }

  /** Packs all fixed pieces or refuses, for the first reason there is; nothing is repacked or retried. */
  method PackDocument(raw: seq<byte>, tools: Tools, limits: Limits) returns (r: Result<Plan, Error>)
    ensures r.Ok? <==> CanPack(raw, tools, limits)
    ensures r.Ok? ==> Planned(raw, tools, limits, r.value)
    ensures r.Ok? || FirstFault(raw, tools, limits, r.error)
    ensures r.Ok? || RefusedFor(raw, tools, limits, r.error)
  {
    if !(1 <= limits.document <= MAX_DOCUMENT_BYTES) {
      r := Err(InvalidLimits);
    } else if !(1 <= |raw| <= limits.document) {
      r := Err(InvalidBytes);
    } else if !tools.json(raw) {
      r := Err(InvalidJson);
    } else if !Sound(limits) {
      r := Err(InvalidLimits);
    } else if (|raw| + limits.chunk - 1) / limits.chunk > limits.chunks {
      r := Err(TooManyChunks);
    } else {
      var chunks := PackPieces(raw, tools, limits);
      if chunks.Ok? { PackedCanPack(raw, tools, limits, chunks.value); }
      r := if chunks.Ok? then Ok(Plan(|raw|, tools.sha(raw), chunks.value)) else Err(chunks.error);
    }
    if r.Err? { Refuses(raw, tools, limits, r.error); }
  }

  lemma Refuses(raw: seq<byte>, tools: Tools, limits: Limits, error: Error)
    requires FirstFault(raw, tools, limits, error)
    ensures !CanPack(raw, tools, limits) && RefusedFor(raw, tools, limits, error)
  {
    FaultMeansNoPack(raw, tools, limits, error);
    FaultMeans(raw, tools, limits, error);
  }

  lemma PackedCanPack(raw: seq<byte>, tools: Tools, limits: Limits, chunks: seq<Packed>)
    requires WholeFault(raw, tools, limits) == None
    requires |chunks| == Pieces(|raw|, limits.chunk) && PackedUpTo(raw, tools, limits, chunks, |chunks|)
    ensures CanPack(raw, tools, limits)
  {
    forall i | 0 <= i < |chunks| ensures Packable(tools, limits.rpc, ChunkAt(raw, tools.sha, limits.chunk, i)) {
      assert chunks[i].chunk == ChunkAt(raw, tools.sha, limits.chunk, i);
    }
  }

  lemma FaultsAgree(raw: seq<byte>, tools: Tools, limits: Limits, k: nat, error: Error, j: nat, other: Error)
    requires Sound(limits) && k < Pieces(|raw|, limits.chunk) && j < Pieces(|raw|, limits.chunk)
    requires FaultAt(raw, tools, limits, k, error) && FaultAt(raw, tools, limits, j, other)
    ensures k == j && error == other
  {
    PackableHasNoFault(tools, limits.rpc, ChunkAt(raw, tools.sha, limits.chunk, k));
    PackableHasNoFault(tools, limits.rpc, ChunkAt(raw, tools.sha, limits.chunk, j));
  }

  /** A document that can be packed has no first fault. */
  lemma FaultMeansNoPack(raw: seq<byte>, tools: Tools, limits: Limits, error: Error)
    requires FirstFault(raw, tools, limits, error)
    ensures !CanPack(raw, tools, limits)
  {
    if WholeFault(raw, tools, limits) == None {
      var k :| 0 <= k < Pieces(|raw|, limits.chunk) && FaultAt(raw, tools, limits, k, error);
      PackableHasNoFault(tools, limits.rpc, ChunkAt(raw, tools.sha, limits.chunk, k));
    }
  }

  /** And there is never more than one first fault: the error is determined. */
  lemma OnlyOneFault(raw: seq<byte>, tools: Tools, limits: Limits, error: Error, other: Error)
    requires FirstFault(raw, tools, limits, error) && FirstFault(raw, tools, limits, other)
    ensures error == other
  {
    if WholeFault(raw, tools, limits) == None {
      var k :| 0 <= k < Pieces(|raw|, limits.chunk) && FaultAt(raw, tools, limits, k, error);
      var j :| 0 <= j < Pieces(|raw|, limits.chunk) && FaultAt(raw, tools, limits, j, other);
      FaultsAgree(raw, tools, limits, k, error, j, other);
    }
  }

  // ---------------------------------------------------------------- reassembly

  /** The receiver's view: each chunk decoded strictly against its own size and digest. */
  ghost function Reassembled(chunks: seq<Packed>, sha: Digest): Option<seq<byte>> {
    if chunks == [] then Some([])
    else
      var last := chunks[|chunks| - 1].chunk.payload;
      var front := Reassembled(chunks[..|chunks| - 1], sha);
      var piece := DecodeBytes(last.text, last.size, last.sha256, sha, MAX_CHUNK_BYTES);
      if front.Some? && piece.Ok? then Some(front.value + piece.value) else None
  }

  /** How much of the document the first n pieces cover. */
  function Covered(size: nat, step: nat, n: nat): nat {
    if n * step <= size then n * step else size
  }

  lemma {:induction false} ReassemblesPrefix(raw: seq<byte>, tools: Tools, limits: Limits, chunks: seq<Packed>)
    requires Sound(limits) && PackedUpTo(raw, tools, limits, chunks, |chunks|) && Prints(tools.sha)
    ensures Reassembled(chunks, tools.sha) == Some(raw[..Covered(|raw|, limits.chunk, |chunks|)])
  {
    if chunks == [] {
      assert raw[..0] == [];
    } else {
      var i := |chunks| - 1;
      ReassemblesPrefix(raw, tools, limits, chunks[..i]);
      PieceDecodes(raw, tools.sha, limits.chunk, i);
      assert chunks[i].chunk == ChunkAt(raw, tools.sha, limits.chunk, i);
    }
  }

  /** One chunk decodes to its piece, which continues what the earlier ones cover. */
  lemma PieceDecodes(raw: seq<byte>, sha: Digest, step: nat, i: nat)
    requires 0 < step <= MAX_CHUNK_BYTES && i < Pieces(|raw|, step) && Prints(sha)
    ensures var payload := ChunkAt(raw, sha, step, i).payload;
      DecodeBytes(payload.text, payload.size, payload.sha256, sha, MAX_CHUNK_BYTES) == Ok(Piece(raw, step, i))
    ensures raw[..Covered(|raw|, step, i)] + Piece(raw, step, i) == raw[..Covered(|raw|, step, i + 1)]
  {
    PieceBounds(|raw|, step, i);
    DecodeInvertsEncode(Piece(raw, step, i), ChunkAt(raw, sha, step, i).payload, sha, MAX_CHUNK_BYTES);
    JoinSlices(raw, i * step, Covered(|raw|, step, i + 1));
  }

  lemma JoinSlices<T>(s: seq<T>, m: nat, n: nat)
    requires m <= n <= |s|
    ensures s[..m] + s[m..n] == s[..n]
  {
  }

  /** Every plan decodes back to the original bytes. */
  lemma PlanReassembles(raw: seq<byte>, tools: Tools, limits: Limits, plan: Plan)
    requires Planned(raw, tools, limits, plan) && Prints(tools.sha)
    ensures Reassembled(plan.chunks, tools.sha) == Some(raw)
  {
    ReassemblesPrefix(raw, tools, limits, plan.chunks);
    PieceBounds(|raw|, limits.chunk, |plan.chunks| - 1);
    assert raw[..|raw|] == raw;
  }

  // ---------------------------------------------------------------- the transfer run

  predicate BeginAllowed(size: nat, chunkCount: nat) {
    1 <= chunkCount <= MAX_CHUNKS && chunkCount <= size <= chunkCount * MAX_CHUNK_BYTES
  }

  /** Every plan satisfies the constraint a begin request must meet. */
  lemma PlanCanBegin(raw: seq<byte>, tools: Tools, limits: Limits, plan: Plan)
    requires Planned(raw, tools, limits, plan)
    ensures BeginAllowed(plan.size, |plan.chunks|)
  {
    var n := |plan.chunks|;
    PieceBounds(|raw|, limits.chunk, n - 1);
    MulMonotone(1, limits.chunk, n - 1);
    MulMonotone(limits.chunk, MAX_CHUNK_BYTES, n);
    Commuted(limits.chunk, n);
    Commuted(limits.chunk, n - 1);
  }

  lemma Commuted(a: nat, b: nat)
    ensures a * b == b * a
  {
  }

  datatype AppendReply = AppendReply(nextSeq: nat, receivedBytes: nat)

  /** The reply check made for each append. */
  predicate AppendAccepted(chunk: Chunk, reply: AppendReply) {
    reply.nextSeq == chunk.seqNo + 1 && reply.receivedBytes == chunk.offset + chunk.payload.size
  }

  /**
   Once every append has a validated reply, each reply announces exactly the next chunk,
   and the last one is what a ready status must report.
   */
  lemma AppendsReachReady(raw: seq<byte>, tools: Tools, limits: Limits, plan: Plan, replies: seq<AppendReply>, i: nat)
    requires Planned(raw, tools, limits, plan) && |replies| == |plan.chunks| && i < |replies|
    requires forall j :: 0 <= j < |replies| ==> AppendAccepted(plan.chunks[j].chunk, replies[j])
    ensures i + 1 < |replies| ==>
      && plan.chunks[i + 1].chunk.seqNo == replies[i].nextSeq
      && plan.chunks[i + 1].chunk.offset == replies[i].receivedBytes
    ensures i + 1 == |replies| ==> replies[i] == AppendReply(|plan.chunks|, plan.size)
  {
    PieceBounds(|raw|, limits.chunk, i);
    assert plan.chunks[i].chunk == ChunkAt(raw, tools.sha, limits.chunk, i);
  }
}
