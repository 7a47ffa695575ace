/**
 * The padding-aware token count of the Hugging Face chunk sizer: the iterator pipeline
 * `ids.iter().skip_while(is pad).take_while(is not pad).count()`.
 *
 * `SkipPad` is `skip_while`, `TakeNonPad` is `take_while`, and `MeaningfulCount` is the
 * `count()` of the two together. `IsMeaningfulSpan` is an index-based description of the
 * same count, and `TrimPads` is the "drop the pads at both ends" reading of the count,
 * kept here only to show where it and the pipeline part ways.
 */
module MeaningfulTokens {
  import opened Wrappers

  /** A token id of the encoding engine: a `u32`. */
  type TokenId = x: int | 0 <= x < 0x1_0000_0000

  /**
   * The `skip_while` predicate `pad_id.map_or(false, |pad_id| id == pad_id)`; its negation
   * is the `take_while` predicate `pad_id.map_or(true, |pad_id| id != pad_id)`.
   */
  predicate IsPad(id: TokenId, pad: Option<TokenId>)
  {
    pad.Some? && id == pad.value
  }

  /**
   * `IsPad` is the `skip_while` closure `pad_id.map_or(false, |pad_id| id == pad_id)`, and its
   * negation is the `take_while` closure `pad_id.map_or(true, |pad_id| id != pad_id)`.
   */
  lemma PadClosures(id: TokenId, pad: Option<TokenId>)
    ensures pad.MapOr(false, (q: TokenId) => id == q) == IsPad(id, pad)
    ensures pad.MapOr(true, (q: TokenId) => id != q) == !IsPad(id, pad)
  {
  }

  /** With no pad id configured, `skip_while` skips nothing. */
  lemma NoPadSkipsNothing(ids: seq<TokenId>)
    ensures SkipPad(ids, None) == ids
  {
  }

  /** With no pad id configured, `take_while` takes every id. */
  lemma {:induction false} NoPadTakesAll(ids: seq<TokenId>)
    ensures TakeNonPad(ids, None) == ids
  {
    if ids != [] {
      NoPadTakesAll(ids[1..]);
      calc {
        TakeNonPad(ids, None);
        [ids[0]] + TakeNonPad(ids[1..], None);
        [ids[0]] + ids[1..];
        ids;
      }
    }
  }

  /** `k` copies of the pad id `p`. */
  function Pads(p: TokenId, k: nat): (s: seq<TokenId>)
    ensures |s| == k
    ensures forall i :: 0 <= i < k ==> s[i] == p
  {
    if k == 0 then [] else [p] + Pads(p, k - 1)
  }

  /**
   * `skip_while(is pad)`: what is left after the longest leading run of pad ids. It is a
   * suffix of `ids`, everything it drops is a pad, and it starts with a non-pad (or is empty).
   */
  function SkipPad(ids: seq<TokenId>, pad: Option<TokenId>): (rest: seq<TokenId>)
    ensures |rest| <= |ids| && rest == ids[|ids| - |rest|..]
    ensures forall i :: 0 <= i < |ids| - |rest| ==> IsPad(ids[i], pad)
    ensures rest != [] ==> !IsPad(rest[0], pad)
  {
    if ids != [] && IsPad(ids[0], pad) then SkipPad(ids[1..], pad) else ids
  }

  /**
   * `take_while(is not pad)`: the longest prefix of `ids` holding no pad id. It stops at the
   * first pad, which it does not include.
   */
  function TakeNonPad(ids: seq<TokenId>, pad: Option<TokenId>): (taken: seq<TokenId>)
    ensures |taken| <= |ids| && taken == ids[..|taken|]
    ensures forall i :: 0 <= i < |taken| ==> !IsPad(taken[i], pad)
    ensures |taken| < |ids| ==> IsPad(ids[|taken|], pad)
  {
    if ids != [] && !IsPad(ids[0], pad) then [ids[0]] + TakeNonPad(ids[1..], pad) else []
  }

  /** How many leading pad ids `skip_while` drops. */
  function SkippedCount(ids: seq<TokenId>, pad: Option<TokenId>): nat
  {
    |ids| - |SkipPad(ids, pad)|
  }

  /** The ids the sizer counts: the pipeline's output before `count()`. */
  function Counted(ids: seq<TokenId>, pad: Option<TokenId>): seq<TokenId>
  {
    TakeNonPad(SkipPad(ids, pad), pad)
  }

  /**
   * The number of meaningful ids. It never exceeds the number of encoded ids and is the full
   * length when no pad id is configured.
   */
  function MeaningfulCount(ids: seq<TokenId>, pad: Option<TokenId>): (n: nat)
    ensures n <= |ids|
    ensures pad.None? ==> n == |ids|
  {
    |Counted(ids, pad)|
  }

  /** The size is zero exactly when every encoded id is a pad id (so also for no ids at all). */
  lemma ZeroIffAllPads(ids: seq<TokenId>, pad: Option<TokenId>)
    ensures MeaningfulCount(ids, pad) == 0 <==> forall i :: 0 <= i < |ids| ==> IsPad(ids[i], pad)
  {
    var rest := SkipPad(ids, pad);
    assert rest != [] ==> rest[0] == ids[|ids| - |rest|] && |TakeNonPad(rest, pad)| > 0;
  }

  /**
   * `lo..hi` is where the counted ids sit in `ids`: `ids[..lo]` is the longest leading run of
   * pads and `ids[lo..hi]` the longest run of non-pads that starts right after it.
   */
  ghost predicate IsMeaningfulSpan(ids: seq<TokenId>, pad: Option<TokenId>, lo: int, hi: int)
  {
    && 0 <= lo <= hi <= |ids|
    && (forall i :: 0 <= i < lo ==> IsPad(ids[i], pad))
    && (lo < |ids| ==> !IsPad(ids[lo], pad))
    && (forall i :: lo <= i < hi ==> !IsPad(ids[i], pad))
    && (hi < |ids| ==> IsPad(ids[hi], pad))
  }

  /** The counted ids are one contiguous slice of the encoding, starting after the skipped pads. */
  lemma CountedIsSlice(ids: seq<TokenId>, pad: Option<TokenId>)
    ensures Counted(ids, pad) == ids[SkippedCount(ids, pad)..SkippedCount(ids, pad) + MeaningfulCount(ids, pad)]
  {
    var rest := SkipPad(ids, pad);
    var taken := TakeNonPad(rest, pad);
    assert rest == ids[SkippedCount(ids, pad)..];
    assert taken == rest[..|taken|];
  }

  /** That slice is a meaningful span: the ids skipped are pads and the ids counted are not. */
  lemma CountedIsSpan(ids: seq<TokenId>, pad: Option<TokenId>)
    ensures IsMeaningfulSpan(ids, pad, SkippedCount(ids, pad), SkippedCount(ids, pad) + MeaningfulCount(ids, pad))
  {
    CountedIsSlice(ids, pad);
    var rest := SkipPad(ids, pad);
    var lo := SkippedCount(ids, pad);
    var taken := TakeNonPad(rest, pad);
    forall i | lo <= i < lo + |taken|
      ensures !IsPad(ids[i], pad)
    {
      assert ids[i] == taken[i - lo];
    }
    assert lo + |taken| < |ids| ==> ids[lo + |taken|] == rest[|taken|];
    assert lo < |ids| ==> ids[lo] == rest[0];
  }

  /**
   * A meaningful span is unique, and its length is the count: the size is the length of the
   * longest run of non-pad ids that starts right after the longest leading run of pad ids.
   */
  lemma SpanLengthIsCount(ids: seq<TokenId>, pad: Option<TokenId>, lo: int, hi: int)
    requires IsMeaningfulSpan(ids, pad, lo, hi)
    ensures MeaningfulCount(ids, pad) == hi - lo
    ensures Counted(ids, pad) == ids[lo..hi]
  {
    CountedIsSpan(ids, pad);
    CountedIsSlice(ids, pad);
    var rest := SkipPad(ids, pad);
    var lo' := SkippedCount(ids, pad);
    assert lo' < |ids| ==> ids[lo'] == rest[0];
    assert lo' == lo;
  }

  /** `skip_while` drops pad ids put in front of the encoding along with its own leading pads. */
  lemma {:induction false} SkipPadDropsLeadingPads(ids: seq<TokenId>, p: TokenId, k: nat)
    ensures SkipPad(Pads(p, k) + ids, Some(p)) == SkipPad(ids, Some(p))
  {
    if k == 0 {
      assert Pads(p, k) + ids == ids;
    } else {
      var padded := Pads(p, k) + ids;
      assert padded[0] == p;
      assert padded[1..] == Pads(p, k - 1) + ids;
      SkipPadDropsLeadingPads(ids, p, k - 1);
    }
  }

  /** Putting any number of pad ids in front of the encoding leaves the size unchanged. */
  lemma LeadingPadsIgnored(ids: seq<TokenId>, p: TokenId, k: nat)
    ensures MeaningfulCount(Pads(p, k) + ids, Some(p)) == MeaningfulCount(ids, Some(p))
    ensures Counted(Pads(p, k) + ids, Some(p)) == Counted(ids, Some(p))
  {
    SkipPadDropsLeadingPads(ids, p, k);
  }

  /**
   * Appending any number of pad ids to the encoding leaves the size unchanged: the counted
   * run already stops at the end of the ids or at an earlier pad.
   */
  lemma {:induction false} TrailingPadsIgnored(ids: seq<TokenId>, p: TokenId, k: nat)
    ensures MeaningfulCount(ids + Pads(p, k), Some(p)) == MeaningfulCount(ids, Some(p))
  {
    CountedIsSpan(ids, Some(p));
    var lo := SkippedCount(ids, Some(p));
    var hi := lo + MeaningfulCount(ids, Some(p));
    var padded := ids + Pads(p, k);
    assert forall i :: 0 <= i < |ids| ==> padded[i] == ids[i];
    assert forall i :: |ids| <= i < |padded| ==> padded[i] == p;
    if lo < |ids| {
      assert IsMeaningfulSpan(padded, Some(p), lo, hi);
      SpanLengthIsCount(padded, Some(p), lo, hi);
    } else {
      assert IsMeaningfulSpan(padded, Some(p), |padded|, |padded|);
      SpanLengthIsCount(padded, Some(p), |padded|, |padded|);
    }
  }

  /** Ids none of which is the pad id are counted in full. */
  lemma PadFreeCount(p: TokenId, content: seq<TokenId>)
    requires forall i :: 0 <= i < |content| ==> content[i] != p
    ensures MeaningfulCount(content, Some(p)) == |content|
  {
    assert IsMeaningfulSpan(content, Some(p), 0, |content|);
    SpanLengthIsCount(content, Some(p), 0, |content|);
  }

  /** When the pads sit only at the two ends, the size is the length of the content between. */
  lemma PaddedContentCount(p: TokenId, a: nat, content: seq<TokenId>, b: nat)
    requires forall i :: 0 <= i < |content| ==> content[i] != p
    ensures MeaningfulCount(Pads(p, a) + content + Pads(p, b), Some(p)) == |content|
  {
    var tail := content + Pads(p, b);
    assert Pads(p, a) + content + Pads(p, b) == Pads(p, a) + tail;
    calc {
      MeaningfulCount(Pads(p, a) + tail, Some(p));
    == { LeadingPadsIgnored(tail, p, a); }
      MeaningfulCount(tail, Some(p));
    == { TrailingPadsIgnored(content, p, b); }
      MeaningfulCount(content, Some(p));
    == { PadFreeCount(p, content); }
      |content|;
    }
  }

  /** The longest prefix of `s` that does not end in a pad id. */
  function DropTrailingPads(s: seq<TokenId>, pad: Option<TokenId>): (r: seq<TokenId>)
    ensures |r| <= |s| && r == s[..|r|]
    ensures forall i :: |r| <= i < |s| ==> IsPad(s[i], pad)
    ensures r != [] ==> !IsPad(r[|r| - 1], pad)
  {
    if s != [] && IsPad(s[|s| - 1], pad) then DropTrailingPads(s[..|s| - 1], pad) else s
  }

  /** The encoding with its longest leading and its longest trailing run of pad ids removed. */
  function TrimPads(ids: seq<TokenId>, pad: Option<TokenId>): seq<TokenId>
  {
    DropTrailingPads(SkipPad(ids, pad), pad)
  }

  /**
   * The `take_while` count never exceeds the length left after trimming the pads at both
   * ends, and equals it exactly when no pad id remains inside the trimmed ids.
   */
  lemma CountVersusTrim(ids: seq<TokenId>, pad: Option<TokenId>)
    ensures MeaningfulCount(ids, pad) <= |TrimPads(ids, pad)|
    ensures MeaningfulCount(ids, pad) == |TrimPads(ids, pad)|
      <==> forall i :: 0 <= i < |TrimPads(ids, pad)| ==> !IsPad(TrimPads(ids, pad)[i], pad)
  {
    var s := SkipPad(ids, pad);
    var t := TakeNonPad(s, pad);
    var m := DropTrailingPads(s, pad);
    assert t != [] ==> s[|t| - 1] == t[|t| - 1];
    assert |t| < |m| ==> m[|t|] == s[|t|];
    assert |t| == |m| ==> m == t;
  }

  /** A pad in the middle cuts the count short: `[P, 7, P, 9]` counts 1, where trimming gives 3. */
  lemma InteriorPadStopsCount(p: TokenId)
    requires p != 7 && p != 9
    ensures MeaningfulCount([p, 7, p, 9], Some(p)) == 1
    ensures |TrimPads([p, 7, p, 9], Some(p))| == 3
  {
    var ids: seq<TokenId> := [p, 7, p, 9];
    SpanLengthIsCount(ids, Some(p), 1, 2);
    assert SkipPad(ids, Some(p)) == [7, p, 9] by {
      assert ids[1..] == [7, p, 9];
    }
    assert [7, p, 9][..2] == [7, p];
  }

  /** `[P, P, 7, 9, 2, P]` counts 3 with pad id `P` and 6 with no pad id configured. */
  lemma PaddedExampleCount(p: TokenId)
    requires p != 7 && p != 9 && p != 2
    ensures MeaningfulCount([p, p, 7, 9, 2, p], Some(p)) == 3
    ensures MeaningfulCount([p, p, 7, 9, 2, p], None) == 6
    ensures MeaningfulCount([p, p, 7, 9, 2], Some(p)) == 3
  {
    SpanLengthIsCount([p, p, 7, 9, 2, p], Some(p), 2, 5);
    SpanLengthIsCount([p, p, 7, 9, 2], Some(p), 2, 5);
  }
}
