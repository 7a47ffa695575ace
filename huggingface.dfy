/**
 * The `ChunkSizer` implementations for a Hugging Face tokenizer: `impl ChunkSizer for &Tokenizer`,
 * which encodes the chunk, counts the meaningful token ids and hands the count to
 * `ChunkSize::from_size`, and `impl ChunkSizer for Tokenizer`, which forwards to it.
 *
 * The tokenizer itself is an external engine; it is represented by what the sizer reads from
 * it: the outcome of encoding a chunk without special tokens, and the configured padding.
 * `ChunkSize::from_size` and `ChunkCapacity` live outside this file, so every sizer function
 * takes `fromSize` as a parameter and is generic over the capacity type `C` and the size type `S`.
 */
module HuggingFace {
  import opened Wrappers
  import opened MeaningfulTokens

  /** The error the engine reports when it cannot tokenize a chunk. */
  datatype EncodeError = EncodeError(reason: string)

  /** The engine's padding configuration; the sizer reads only its pad id. */
  datatype PaddingParams = PaddingParams(padId: TokenId)

  /**
   * A tokenizer as the sizer sees it. `encode(chunk)` is the outcome of
   * `encode(chunk, false)` (no special tokens added) followed by `get_ids()`;
   * `padding` is what `get_padding()` returns.
   */
  datatype Tokenizer = Tokenizer(
    encode: string -> Result<seq<TokenId>, EncodeError>,
    padding: Option<PaddingParams>)

  /** A shared borrow `&Tokenizer` of a tokenizer. */
  datatype TokenizerRef = Borrow(target: Tokenizer)

  /** The panic raised by `expect` when encoding fails: its message and the engine's error. */
  datatype Panic = Panic(message: string, cause: EncodeError)

  /** The fixed start of the `expect` message. */
  const ExpectPrefix: string := "Unable to tokenize the following string "

  /**
   * The `expect` message as the source writes it: a plain string literal, which `expect`
   * does not format, so the text `{chunk}` appears verbatim and the chunk is never shown.
   */
  function ExpectMessageAsWritten(chunk: string): string
  {
    ExpectPrefix + "{chunk}"
  }

  /** As written, the message is the same for every chunk, e.g. for "a" and for "b". */
  lemma ExpectMessageAsWrittenIgnoresChunk()
    ensures forall c1: string, c2: string :: ExpectMessageAsWritten(c1) == ExpectMessageAsWritten(c2)
    ensures ExpectMessageAsWritten("a") == ExpectMessageAsWritten("b") && "a" != "b"
  {
  }

  /** The message the source evidently intends: the fixed start followed by the chunk itself. */
  function ExpectMessage(chunk: string): string
  {
    ExpectPrefix + chunk
  }

  /** The intended message identifies the chunk that could not be tokenized. */
  lemma ExpectMessageNamesChunk(c1: string, c2: string)
    ensures ExpectMessage(c1) == ExpectMessage(c2) ==> c1 == c2
  {
    if ExpectMessage(c1) == ExpectMessage(c2) {
      assert c1 == ExpectMessage(c1)[|ExpectPrefix|..];
      assert c2 == ExpectMessage(c2)[|ExpectPrefix|..];
    }
  }

  /** The pad id the sizer uses: `self.get_padding().map(|params| params.pad_id)`. */
  function PadId(t: Tokenizer): Option<TokenId>
  {
    t.padding.Map((params: PaddingParams) => params.padId)
  }

  /** A pad id is used exactly when padding is configured, and it is the configured one. */
  lemma PadIdFollowsPadding(t: Tokenizer)
    ensures PadId(t).None? <==> t.padding.None?
    ensures t.padding.Some? ==> PadId(t) == Some(t.padding.value.padId)
  {
  }

  /**
   * `impl ChunkSizer for &Tokenizer`: a failed encoding panics, with the message exactly as the
   * source writes it, and yields no size; otherwise the result is `from_size` of the meaningful
   * count of the encoded ids.
   */
  function BorrowedChunkSize<C, S>(r: TokenizerRef, chunk: string, capacity: C, fromSize: (nat, C) -> S)
    : (result: Result<S, Panic>)
    ensures result.Failure? <==> r.target.encode(chunk).Failure?
    ensures result.Failure? ==> result.error == Panic(ExpectMessageAsWritten(chunk), r.target.encode(chunk).error)
    ensures result.Success? ==>
      result.value == fromSize(MeaningfulCount(r.target.encode(chunk).value, PadId(r.target)), capacity)
  {
    match r.target.encode(chunk)
    case Failure(e) => Failure(Panic(ExpectMessageAsWritten(chunk), e))
    case Success(ids) => Success(fromSize(MeaningfulCount(ids, PadId(r.target)), capacity))
  }

  /**
   * `impl ChunkSizer for Tokenizer`: forwards to the borrowed implementation, so it panics on
   * the same chunks and otherwise sizes by the same meaningful count.
   */
  function OwnedChunkSize<C, S>(t: Tokenizer, chunk: string, capacity: C, fromSize: (nat, C) -> S)
    : (result: Result<S, Panic>)
    ensures result.Failure? <==> t.encode(chunk).Failure?
    ensures result.Failure? ==> result.error == Panic(ExpectMessageAsWritten(chunk), t.encode(chunk).error)
    ensures result.Success? ==>
      result.value == fromSize(MeaningfulCount(t.encode(chunk).value, PadId(t)), capacity)
  {
    BorrowedChunkSize(Borrow(t), chunk, capacity, fromSize)
  }

  /** Sizing through an owned tokenizer and through a borrow of it give the same result. */
  lemma OwnedAgreesWithBorrowed<C, S>(t: Tokenizer, chunk: string, capacity: C, fromSize: (nat, C) -> S)
    ensures OwnedChunkSize(t, chunk, capacity, fromSize) == BorrowedChunkSize(Borrow(t), chunk, capacity, fromSize)
  {
  }

  /**
   * The capacity reaches nothing but `from_size`: measured against any two capacities, a chunk
   * is sized by one and the same count, which never exceeds the number of encoded ids.
   */
  lemma CapacityOnlyReachesFromSize<C, S>(t: Tokenizer, chunk: string, c1: C, c2: C, fromSize: (nat, C) -> S)
    requires t.encode(chunk).Success?
    ensures exists n: nat ::
      && n <= |t.encode(chunk).value|
      && OwnedChunkSize(t, chunk, c1, fromSize) == Success(fromSize(n, c1))
      && OwnedChunkSize(t, chunk, c2, fromSize) == Success(fromSize(n, c2))
  {
    var n := MeaningfulCount(t.encode(chunk).value, PadId(t));
    assert n <= |t.encode(chunk).value|;
    assert OwnedChunkSize(t, chunk, c1, fromSize) == Success(fromSize(n, c1));
    assert OwnedChunkSize(t, chunk, c2, fromSize) == Success(fromSize(n, c2));
  }

  /** With no padding configured, the size is taken from every encoded id. */
  lemma UnpaddedSizeCountsAllIds<C, S>(t: Tokenizer, chunk: string, capacity: C, fromSize: (nat, C) -> S)
    requires t.padding.None? && t.encode(chunk).Success?
    ensures OwnedChunkSize(t, chunk, capacity, fromSize) == Success(fromSize(|t.encode(chunk).value|, capacity))
  {
  }

  /**
   * Pad ids that the engine puts before and after the encoded ids do not count: the chunk is
   * sized as if they were absent.
   */
  lemma PaddingAroundIsIgnored<C, S>(
    t: Tokenizer, chunk: string, capacity: C, fromSize: (nat, C) -> S,
    ids: seq<TokenId>, p: TokenId, a: nat, b: nat)
    requires t.padding == Some(PaddingParams(p))
    requires t.encode(chunk) == Success(Pads(p, a) + ids + Pads(p, b))
    ensures OwnedChunkSize(t, chunk, capacity, fromSize) == Success(fromSize(MeaningfulCount(ids, Some(p)), capacity))
  {
    assert Pads(p, a) + ids + Pads(p, b) == Pads(p, a) + (ids + Pads(p, b));
    LeadingPadsIgnored(ids + Pads(p, b), p, a);
    TrailingPadsIgnored(ids, p, b);
  }

  /**
   * A tokenizer without padding that encodes " An apple a" to three ids sizes it as
   * `from_size(3, capacity)`.
   */
  lemma ReturnsSize<C, S>(t: Tokenizer, capacity: C, fromSize: (nat, C) -> S)
    requires t.padding.None?
    requires t.encode(" An apple a").Success? && |t.encode(" An apple a").value| == 3
    ensures OwnedChunkSize(t, " An apple a", capacity, fromSize) == Success(fromSize(3, capacity))
  {
    UnpaddedSizeCountsAllIds(t, " An apple a", capacity, fromSize);
  }

  /**
   * A padding tokenizer that encodes "An apple a" to three non-pad ids surrounded by any
   * number of pad ids sizes it as `from_size(3, capacity)`.
   */
  lemma HandlesPadding<C, S>(t: Tokenizer, capacity: C, fromSize: (nat, C) -> S,
    p: TokenId, a: nat, content: seq<TokenId>, b: nat)
    requires t.padding == Some(PaddingParams(p))
    requires |content| == 3 && forall i :: 0 <= i < 3 ==> content[i] != p
    requires t.encode("An apple a") == Success(Pads(p, a) + content + Pads(p, b))
    ensures OwnedChunkSize(t, "An apple a", capacity, fromSize) == Success(fromSize(3, capacity))
  {
    PaddedContentCount(p, a, content, b);
  }

  /**
   * A tokenizer whose encoding of "An apple a" is three ids none of which is its pad id (or that
   * has no padding at all) sizes it as `from_size(3, capacity)`.
   */
  lemma ReturnsSizeHandlesPrefix<C, S>(t: Tokenizer, capacity: C, fromSize: (nat, C) -> S, ids: seq<TokenId>)
    requires t.encode("An apple a") == Success(ids)
    requires |ids| == 3 && forall i :: 0 <= i < 3 ==> !IsPad(ids[i], PadId(t))
    ensures OwnedChunkSize(t, "An apple a", capacity, fromSize) == Success(fromSize(3, capacity))
  {
    SpanLengthIsCount(ids, PadId(t), 0, 3);
  }

  /**
   * As written, every chunk the engine rejects panics with one and the same message, so the
   * panic does not tell which chunk failed.
   */
  lemma FailedChunksPanicAlike<C, S>(r: TokenizerRef, c1: string, c2: string, capacity: C, fromSize: (nat, C) -> S)
    requires r.target.encode(c1).Failure? && r.target.encode(c2).Failure?
    ensures BorrowedChunkSize(r, c1, capacity, fromSize).Failure?
    ensures BorrowedChunkSize(r, c2, capacity, fromSize).Failure?
    ensures BorrowedChunkSize(r, c1, capacity, fromSize).error.message
         == BorrowedChunkSize(r, c2, capacity, fromSize).error.message
  {
  }
}
