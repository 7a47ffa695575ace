# Hugging Face chunk sizer of text-splitter, in Dafny

This project models how text-splitter measures a chunk of text in tokens when the sizer is a
Hugging Face `Tokenizer`. The sizer encodes the chunk without special tokens and reads the token
ids. It skips the leading run of padding ids (`skip_while`), then counts ids up to the next padding
id (`take_while`). The count goes to `ChunkSize::from_size` together with the capacity. With no
padding configured, nothing is skipped and every id is counted. The owned `Tokenizer`
implementation forwards to the `&Tokenizer` one. When encoding fails, `expect` panics and no size
is produced.

Files:

- `wrappers.dfy` — module `Wrappers`: `Option` (with Rust's `map` and `map_or`) and `Result`.
- `meaningful_tokens.dfy` — module `MeaningfulTokens`: the id pipeline (`SkipPad`, `TakeNonPad`,
  `MeaningfulCount`) and its properties. `IsMeaningfulSpan` is an index-based description of the
  counted ids. `TrimPads` describes "drop the pads at both ends", to show where that reading and
  the pipeline part ways.
- `huggingface.dfy` — module `HuggingFace`: the tokenizer as the sizer sees it, the two
  `ChunkSizer` implementations, and the scenarios of the source's tests.

The encoding engine is foreign code. A `Tokenizer` value therefore carries what the sizer reads
from it: `encode`, a function from the chunk to either the ids of `encode(chunk, false)` or an
engine error, and `padding`, the result of `get_padding()`. Token ids and the pad id are `u32`,
modelled as the subset type `TokenId` of `int`. A panic is modelled as the `Failure` case of the
result, carrying the panic message and the engine's error. The panic message is the literal text the source passes to `expect`,
which does not name the chunk (see Findings). `ChunkSize::from_size` and
`ChunkCapacity` are defined outside `src/chunk_size/huggingface.rs` and are not part of this
model. Every sizer function therefore takes `from_size` as a parameter `fromSize: (nat, C) -> S`,
generic in the capacity type `C` and the size type `S`. The model assumes nothing about how
`from_size` classifies a size.

The comment at `src/chunk_size/huggingface.rs:22` says the padding ids at the beginning and at
the end are skipped; the model follows the code, which stops counting at the first pad id after
the content starts. Both give the same count when pads occur only at the two ends
(`PaddedContentCount`). A pad in the middle cuts the count short: `[P, 7, P, 9]` counts 1, while
trimming both ends would leave 3 ids (`InteriorPadStopsCount`, `CountVersusTrim`).

## Model

| member | source | states |
|---|---|---|
| MeaningfulTokens.PadClosures | src/chunk_size/huggingface.rs:23-24 | `IsPad` (defined as: a pad id is configured and the id equals it) is the `skip_while` closure `map_or(false, \|p\| id == p)`, and its negation is the `take_while` closure `map_or(true, \|p\| id != p)`; what skipping and taking by it yields is stated by `SkipPad`, `TakeNonPad` and `MeaningfulCount` |
| MeaningfulTokens.NoPadSkipsNothing | src/chunk_size/huggingface.rs:23 | with no pad id configured, `skip_while` skips nothing |
| MeaningfulTokens.NoPadTakesAll | src/chunk_size/huggingface.rs:24 | with no pad id configured, `take_while` takes every id |
| MeaningfulTokens.SkipPad | src/chunk_size/huggingface.rs:23 | `skip_while` leaves a suffix of the ids; every id it drops is the pad id, and what is left starts with a non-pad id (or is empty) |
| MeaningfulTokens.TakeNonPad | src/chunk_size/huggingface.rs:24 | `take_while` keeps a prefix of the ids that holds no pad id, and stops only at the end or at a pad id |
| MeaningfulTokens.MeaningfulCount | src/chunk_size/huggingface.rs:17-25 | the size never exceeds the number of encoded ids, and equals it when no pad id is configured |
| MeaningfulTokens.ZeroIffAllPads | src/chunk_size/huggingface.rs:23-25 | the size is 0 exactly when every encoded id is the pad id, which includes the empty encoding |
| MeaningfulTokens.CountedIsSlice | src/chunk_size/huggingface.rs:19-25 | the counted ids are one contiguous slice of the encoding, starting right after the skipped pads |
| MeaningfulTokens.CountedIsSpan | src/chunk_size/huggingface.rs:23-25 | that slice is preceded only by pad ids, holds no pad id, and is followed by a pad id or the end |
| MeaningfulTokens.SpanLengthIsCount | src/chunk_size/huggingface.rs:23-25 | the size is the length of the longest run of non-pad ids that starts right after the longest leading run of pad ids; that run is unique and is exactly the counted ids |
| MeaningfulTokens.SkipPadDropsLeadingPads | src/chunk_size/huggingface.rs:23 | `skip_while` gives the same remainder when any number of pad ids are put in front |
| MeaningfulTokens.LeadingPadsIgnored | src/chunk_size/huggingface.rs:22-23 | putting any number of pad ids in front of the encoding changes neither the size nor the counted ids |
| MeaningfulTokens.TrailingPadsIgnored | src/chunk_size/huggingface.rs:22-24 | appending any number of pad ids to the encoding leaves the size unchanged |
| MeaningfulTokens.PadFreeCount | src/chunk_size/huggingface.rs:23-25 | ids none of which is the pad id are counted in full |
| MeaningfulTokens.PaddedContentCount | src/chunk_size/huggingface.rs:22-25 | pads, then pad-free content, then pads: the size is the length of the content |
| MeaningfulTokens.DropTrailingPads | src/chunk_size/huggingface.rs:22 | dropping trailing pads leaves a prefix that ends in a non-pad id, and everything dropped is the pad id |
| MeaningfulTokens.CountVersusTrim | src/chunk_size/huggingface.rs:22-25 | the size never exceeds the length left after trimming pads at both ends, and equals it exactly when no pad id remains inside the trimmed ids |
| MeaningfulTokens.InteriorPadStopsCount | src/chunk_size/huggingface.rs:24 | `[P, 7, P, 9]` counts 1, although trimming both ends would leave 3 ids |
| MeaningfulTokens.PaddedExampleCount | src/chunk_size/huggingface.rs:23-25 | `[P, P, 7, 9, 2, P]` counts 3 with pad id P and 6 with no pad id; `[P, P, 7, 9, 2]` also counts 3 |
| HuggingFace.PadIdFollowsPadding | src/chunk_size/huggingface.rs:17 | `PadId` is defined as `get_padding().map(\|params\| params.pad_id)` with Rust's `Option::map`; the sizer has a pad id exactly when padding is configured, and then it is the configured `pad_id`; its effect on the size is proved by `UnpaddedSizeCountsAllIds` and `PaddingAroundIsIgnored` |
| HuggingFace.BorrowedChunkSize | src/chunk_size/huggingface.rs:12-28 | `&Tokenizer` sizing: a failed encoding yields the `expect` panic, with the literal message of line 15 and the engine's error, and never a size; otherwise the result is `from_size` of the meaningful count of the encoded ids, with the configured pad id |
| HuggingFace.OwnedChunkSize | src/chunk_size/huggingface.rs:38-40 | owned `Tokenizer` sizing panics on exactly the same chunks, with the same literal message and the engine's error, and otherwise gives `from_size` of the same meaningful count |
| HuggingFace.OwnedAgreesWithBorrowed | src/chunk_size/huggingface.rs:38-40 | sizing through an owned tokenizer equals sizing through a borrow of it |
| HuggingFace.CapacityOnlyReachesFromSize | src/chunk_size/huggingface.rs:27 | for any two capacities, a chunk is sized by one and the same count, at most the number of encoded ids; the capacity only reaches `from_size` |
| HuggingFace.UnpaddedSizeCountsAllIds | src/chunk_size/huggingface.rs:17-25 | with no padding configured, the result is `from_size` of the total number of encoded ids |
| HuggingFace.PaddingAroundIsIgnored | src/chunk_size/huggingface.rs:17-27 | pad ids that the engine puts before and after the ids do not change the result |
| HuggingFace.ReturnsSize | src/chunk_size/huggingface.rs:48-53 | an unpadded tokenizer that encodes " An apple a" to 3 ids gives `from_size(3, capacity)` |
| HuggingFace.HandlesPadding | src/chunk_size/huggingface.rs:66-71 | a padding tokenizer that encodes "An apple a" to 3 non-pad ids surrounded by pads gives `from_size(3, capacity)` |
| HuggingFace.ReturnsSizeHandlesPrefix | src/chunk_size/huggingface.rs:55-63 | a tokenizer that encodes "An apple a" to 3 ids, none of them its pad id, gives `from_size(3, capacity)` |
| HuggingFace.ExpectMessageAsWrittenIgnoresChunk | src/chunk_size/huggingface.rs:15 | the panic message as written is the same for every two chunks, among them the distinct chunks "a" and "b" |
| HuggingFace.FailedChunksPanicAlike | src/chunk_size/huggingface.rs:12-15 | any two chunks the engine fails to encode both make the sizer panic, and with the same message, so the panic does not say which chunk failed |
| HuggingFace.ExpectMessageNamesChunk | src/chunk_size/huggingface.rs:15 | with the evidently intended message (the fixed text followed by the chunk), two chunks with the same panic message are the same chunk |

## Left out

- The `tokenizers` crate (vocabularies, the encoding algorithm, `encode`, `get_ids`, `get_padding`) is foreign code. Its outputs are inputs here: the `encode` function and the `padding` field of `Tokenizer`.
- `PaddingParams` keeps only `pad_id`. The sizer reads no other field of it.
- `add_special_tokens` is always `false` in the source, so `encode` stands for that one call.
- `ChunkSize::from_size` and `ChunkCapacity` are not part of this model. They are a parameter, and no classification rule (fits, below, exceeds) is modelled or assumed.
- A panic is not unwound. It is the `Failure` result carrying the panic message and the engine's error, and no size is produced.
- `Tokenizer::from_pretrained` and `Tokenizer::from_file` in the tests need the network and files. The test lemmas take as a hypothesis what the loaded tokenizer returns for the test strings.
- Determinism and thread safety are not stated separately: the sizer functions are mathematical functions of the tokenizer, the chunk and the capacity.

## Findings

| source | as written | input that shows it | evidently intended | confidence | as-written member | corrected member |
|---|---|---|---|---|---|---|
| src/chunk_size/huggingface.rs:15 | the message passed to `expect` is a plain string literal; `expect` does not format it, so the panic shows the literal text `{chunk}` | any two chunks the engine cannot encode, e.g. "a" and "b": both panic with the same message | the message names the chunk that could not be tokenized | high; not executed | HuggingFace.ExpectMessageAsWrittenIgnoresChunk | HuggingFace.ExpectMessageNamesChunk |
