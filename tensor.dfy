/** The padding and masking helpers of `tensor.py`, with tensor elements as
    integers (token values) and booleans (masks). A rank-1 tensor is a
    `seq<int>`, a rank-2 tensor a rectangular `seq<seq<int>>`; the buffers the
    source allocates with `torch.zeros` / `torch.ones` are arrays. */
module Tensor {
  import opened Wrappers

  /** The exceptions the helpers raise. */
  datatype PadError =
    | EmptyBatch                        // `max([])` or `tensor_list[0]` on an empty list
    | EmptyMatrix(index: nat)           // `tensor[0]` on a rank-2 tensor with no rows
    | RankMismatch(index: nat)          // an element whose rank differs from the first one's
    | NotImplemented(rank: nat)         // `zero_pad_batching` on a rank other than 1 or 2
    | MaskTooManyIndices                // a two-index write into the rank-1 mask
    | MaskSizeIsTensor                  // `torch.ones` given a tensor instead of a shape
    | BatchMismatch(tgt: nat, src: nat) // batch sizes that do not broadcast

  // ---------------------------------------------------------------------------
  // Shapes
  // ---------------------------------------------------------------------------

  /** `max(len(t) for t in xs)`, with 0 for an empty list. */
  function MaxLen<T>(xs: seq<seq<T>>): (m: nat)
    ensures forall i :: 0 <= i < |xs| ==> |xs[i]| <= m
    ensures |xs| > 0 ==> exists i :: 0 <= i < |xs| && |xs[i]| == m
    ensures |xs| == 0 ==> m == 0
  {
    if |xs| == 0 then 0
    else
      var rest := MaxLen(xs[1..]);
      assert forall i :: 1 <= i < |xs| ==> xs[i] == xs[1..][i - 1];
      if |xs[0]| >= rest then |xs[0]| else rest
  }

  /** Every row has the length of the first: the shape of a rank-2 tensor. */
  predicate Rectangular<T>(m: seq<seq<T>>)
  {
    forall i :: 0 <= i < |m| ==> |m[i]| == |m[0]|
  }

  /** The size of the last dimension of a rank-2 tensor (0 when it has no rows). */
  function Cols<T>(m: seq<seq<T>>): nat
  {
    if |m| == 0 then 0 else |m[0]|
  }

  /** The contents of a 2-D array, row by row. */
  function Grid<T>(a: array2<T>): (g: seq<seq<T>>)
    reads a
    ensures |g| == a.Length0
    ensures forall i :: 0 <= i < |g| ==> |g[i]| == a.Length1
  {
    seq(a.Length0, i requires 0 <= i < a.Length0 reads a =>
      seq(a.Length1, j requires 0 <= j < a.Length1 reads a => a[i, j]))
  }

  // ---------------------------------------------------------------------------
  // zero_pad_batching_one_dim, on values
  // ---------------------------------------------------------------------------

  /** One input row copied into the front of a zero row of length `width`. */
  function PadRow(row: seq<int>, width: nat): (r: seq<int>)
    requires |row| <= width
    ensures |r| == width
    ensures r[..|row|] == row
    ensures forall j :: |row| <= j < width ==> r[j] == 0
  {
    row + seq(width - |row|, _ => 0)
  }

  /** The padded batch: one row per input, `MaxLen(rows)` columns. */
  function PaddedOneDim(rows: seq<seq<int>>): (p: seq<seq<int>>)
    ensures |p| == |rows|
    ensures forall i :: 0 <= i < |rows| ==> p[i] == PadRow(rows[i], MaxLen(rows))
  {
    seq(|rows|, i requires 0 <= i < |rows| => PadRow(rows[i], MaxLen(rows)))
  }

  /** The padding mask: `false` where a value was copied, `true` at padding. */
  function PadMaskOneDim(rows: seq<seq<int>>): (m: seq<seq<bool>>)
    ensures |m| == |rows|
    ensures forall i :: 0 <= i < |rows| ==> |m[i]| == MaxLen(rows)
    ensures forall i, j :: 0 <= i < |rows| && 0 <= j < MaxLen(rows) ==> (m[i][j] <==> j >= |rows[i]|)
  {
    seq(|rows|, i requires 0 <= i < |rows| =>
      seq(MaxLen(rows), j requires 0 <= j < MaxLen(rows) => j >= |rows[i]|))
  }

  /** The number of `false` (copied) positions of a mask row. */
  function CountCopied(maskRow: seq<bool>): (c: nat)
    ensures c <= |maskRow|
  {
    if |maskRow| == 0 then 0
    else (if maskRow[0] then 0 else 1) + CountCopied(maskRow[1..])
  }

  /** Undoing the padding: each row cut back to the number of positions its
      mask row marks as copied. */
  function Unpad(padded: seq<seq<int>>, mask: seq<seq<bool>>): (rows: seq<seq<int>>)
    requires |mask| == |padded|
    requires forall i :: 0 <= i < |padded| ==> |mask[i]| == |padded[i]|
    ensures |rows| == |padded|
  {
    seq(|padded|, i requires 0 <= i < |padded| => padded[i][..CountCopied(mask[i])])
  }

  /** A mask row that is `false` on its first `len` positions and `true`
      after them marks exactly `len` positions as copied. */
  lemma {:induction false} CountCopiedPrefix(m: seq<bool>, len: nat)
    requires len <= |m|
    requires forall j :: 0 <= j < |m| ==> (m[j] <==> j >= len)
    ensures CountCopied(m) == len
    decreases |m|
  {
    if |m| > 0 {
      if len > 0 {
        CountCopiedPrefix(m[1..], len - 1);
      } else {
        CountCopiedPrefix(m[1..], 0);
      }
    }
  }

  /** The padded batch and its mask together determine the input: cutting
      each padded row at its mask's count of copied positions gives the row
      back. (The zeros alone would not do: an input may itself hold zeros.) */
  lemma UnpadPaddedOneDim(rows: seq<seq<int>>)
    ensures Unpad(PaddedOneDim(rows), PadMaskOneDim(rows)) == rows
  {
    var p, m := PaddedOneDim(rows), PadMaskOneDim(rows);
    forall i | 0 <= i < |rows|
      ensures Unpad(p, m)[i] == rows[i]
    {
      CountCopiedPrefix(m[i], |rows[i]|);
    }
  }

  // ---------------------------------------------------------------------------
  // zero_pad_batching_one_dim, on arrays
  // ---------------------------------------------------------------------------

  /** The slice assignment `a[idx, :len(row)] = row`. */
  method FillRow<T>(a: array2<T>, idx: nat, row: seq<T>)
    requires idx < a.Length0 && |row| <= a.Length1
    modifies a
    ensures forall i, j :: 0 <= i < a.Length0 && 0 <= j < a.Length1 ==>
              a[i, j] == (if i == idx && j < |row| then row[j] else old(a[i, j]))
  {
    forall j | 0 <= j < |row| {
      a[idx, j] := row[j];
    }
  }

  /** A buffer whose every cell holds the padded value is the padded batch. */
  lemma GridPaddedOneDim(tokens: array2<int>, rows: seq<seq<int>>)
    requires tokens.Length0 == |rows| && tokens.Length1 == MaxLen(rows)
    requires forall i, j :: 0 <= i < |rows| && 0 <= j < MaxLen(rows) ==>
               tokens[i, j] == (if j < |rows[i]| then rows[i][j] else 0)
    ensures Grid(tokens) == PaddedOneDim(rows)
  {
    forall i | 0 <= i < |rows|
      ensures Grid(tokens)[i] == PaddedOneDim(rows)[i]
    {
      assert Grid(tokens)[i] == PadRow(rows[i], MaxLen(rows));
    }
  }

  /** A buffer that is `false` exactly at the copied cells is the padding mask. */
  lemma GridPadMaskOneDim(mask: array2<bool>, rows: seq<seq<int>>)
    requires mask.Length0 == |rows| && mask.Length1 == MaxLen(rows)
    requires forall i, j :: 0 <= i < |rows| && 0 <= j < MaxLen(rows) ==>
               (mask[i, j] <==> j >= |rows[i]|)
    ensures Grid(mask) == PadMaskOneDim(rows)
  {
    var g, m := Grid(mask), PadMaskOneDim(rows);
    forall i | 0 <= i < |rows|
      ensures g[i] == m[i]
    {
      assert forall j :: 0 <= j < MaxLen(rows) ==> g[i][j] == m[i][j];
    }
  }

  /** `zero_pad_batching_one_dim(tensor_list, return_mask)` for rank-1 inputs,
      with the mask allocated with the token buffer's full shape: a zero buffer
      of shape (n, max_len) and a `true` mask of the same shape, then each row
      copied into the front of its buffer row and cleared in the mask. */
  method ZeroPadBatchingOneDim(rows: seq<seq<int>>, returnMask: bool)
    returns (r: Result<(array2<int>, Option<array2<bool>>), PadError>)
    ensures rows == [] ==> r == Failure(EmptyBatch)
    ensures rows != [] ==> r.Success?
    ensures r.Success? ==> fresh(r.value.0) && Grid(r.value.0) == PaddedOneDim(rows)
    ensures r.Success? ==> (r.value.1.Some? <==> returnMask)
    ensures r.Success? && r.value.1.Some? ==>
              fresh(r.value.1.value) && Grid(r.value.1.value) == PadMaskOneDim(rows)
  {
    if |rows| == 0 {
      return Failure(EmptyBatch);
    }
    var n, w := |rows|, MaxLen(rows);
    var tokens := new int[n, w]((i, j) => 0);
    var mask := new bool[n, w]((i, j) => true);
    for idx := 0 to n
      invariant forall i, j :: 0 <= i < n && 0 <= j < w ==>
                  tokens[i, j] == (if i < idx && j < |rows[i]| then rows[i][j] else 0)
      invariant forall i, j :: 0 <= i < n && 0 <= j < w ==>
                  (mask[i, j] <==> !(returnMask && i < idx && j < |rows[i]|))
    {
      FillRow(tokens, idx, rows[idx]);
      if returnMask {
        FillRow(mask, idx, seq(|rows[idx]|, _ => false));
      }
    }
    GridPaddedOneDim(tokens, rows);
    if returnMask {
      GridPadMaskOneDim(mask, rows);
      r := Success((tokens, Some(mask)));
    } else {
      r := Success((tokens, None));
    }
  }

  /** `zero_pad_batching_one_dim` as written, for rank-1 inputs: the mask is
      allocated with `token_tensor.shape[:-1]`, which for a (n, max_len)
      buffer is the rank-1 shape (n,), so the first write
      `mask_tensor[idx, :len(tensor)]` indexes one dimension too many and
      raises. Only `return_mask=False` produces a result. */
  method ZeroPadBatchingOneDimAsWritten(rows: seq<seq<int>>, returnMask: bool)
    returns (r: Result<array2<int>, PadError>)
    ensures rows == [] ==> r == Failure(EmptyBatch)
    ensures rows != [] && returnMask ==> r == Failure(MaskTooManyIndices)
    ensures rows != [] && !returnMask ==>
              r.Success? && fresh(r.value) && Grid(r.value) == PaddedOneDim(rows)
  {
    if |rows| == 0 {
      return Failure(EmptyBatch);
    }
    if returnMask {
      return Failure(MaskTooManyIndices);
    }
    var padded := ZeroPadBatchingOneDim(rows, false);
    r := Success(padded.value.0);
  }

  // ---------------------------------------------------------------------------
  // zero_pad_batching_two_dim
  // ---------------------------------------------------------------------------

  /** The first row of every matrix of a batch. */
  function FirstRows(mats: seq<seq<seq<int>>>): (f: seq<seq<int>>)
    requires forall k :: 0 <= k < |mats| ==> |mats[k]| > 0
    ensures |f| == |mats|
    ensures forall k :: 0 <= k < |mats| ==> f[k] == mats[k][0]
  {
    seq(|mats|, k requires 0 <= k < |mats| => mats[k][0])
  }

  /** The index of the first matrix with no rows, or `|mats|` when there is none. */
  function FirstEmpty(mats: seq<seq<seq<int>>>): (k: nat)
    ensures k <= |mats|
    ensures k < |mats| ==> mats[k] == []
    ensures forall j :: 0 <= j < k ==> mats[j] != []
  {
    if |mats| == 0 then 0
    else if mats[0] == [] then 0
    else
      var rest := FirstEmpty(mats[1..]);
      assert forall j :: 1 <= j < |mats| ==> mats[j] == mats[1..][j - 1];
      1 + rest
  }

  /** A batch the two-dim path accepts: non-empty, every element a
      rectangular matrix with at least one row. */
  predicate TwoDimBatch(mats: seq<seq<seq<int>>>)
  {
    && |mats| > 0
    && forall k :: 0 <= k < |mats| ==> |mats[k]| > 0 && Rectangular(mats[k])
  }

  /** Position (i, j) lies in the top-left block that input `k` fills. */
  predicate InBlock(mats: seq<seq<seq<int>>>, k: nat, i: nat, j: nat)
    requires k < |mats| && |mats[k]| > 0
  {
    i < |mats[k]| && j < |mats[k][0]|
  }

  /** The value at position (k, i, j) of the padded batch: the input's value
      inside its block, zero elsewhere. */
  function Cell(mats: seq<seq<seq<int>>>, k: nat, i: nat, j: nat): int
    requires k < |mats| && |mats[k]| > 0 && Rectangular(mats[k])
  {
    if InBlock(mats, k, i, j) then mats[k][i][j] else 0
  }

  /** The padded shape (n, max rows, max length of the first rows) has room
      for every input: each block fits inside the buffer, so every value of
      every input lands in the result. */
  lemma {:induction false} BlocksFit(mats: seq<seq<seq<int>>>, k: nat)
    requires TwoDimBatch(mats) && k < |mats|
    ensures |mats[k]| <= MaxLen(mats)
    ensures forall i :: 0 <= i < |mats[k]| ==> |mats[k][i]| <= MaxLen(FirstRows(mats))
  {
    assert FirstRows(mats)[k] == mats[k][0];
  }

  /** The 3-D buffer holds the padded batch: shape (n, max rows, max length
      of the first rows), each input in its top-left block, zeros elsewhere. */
  ghost predicate PaddedTwoDim(tokens: array3<int>, mats: seq<seq<seq<int>>>)
    requires TwoDimBatch(mats)
    reads tokens
  {
    && tokens.Length0 == |mats| && tokens.Length1 == MaxLen(mats)
    && tokens.Length2 == MaxLen(FirstRows(mats))
    && forall k, i, j :: 0 <= k < tokens.Length0 && 0 <= i < tokens.Length1 && 0 <= j < tokens.Length2 ==>
         tokens[k, i, j] == Cell(mats, k, i, j)
  }

  /** The 3-D mask of the token buffer's shape: `false` exactly on each input's block. */
  ghost predicate PadMaskTwoDim(mask: array3<bool>, mats: seq<seq<seq<int>>>)
    requires TwoDimBatch(mats)
    reads mask
  {
    && mask.Length0 == |mats| && mask.Length1 == MaxLen(mats)
    && mask.Length2 == MaxLen(FirstRows(mats))
    && forall k, i, j :: 0 <= k < mask.Length0 && 0 <= i < mask.Length1 && 0 <= j < mask.Length2 ==>
         (mask[k, i, j] <==> !InBlock(mats, k, i, j))
  }

  /** The slice assignment `a[idx, :len(block), :len(block[0])] = block`. */
  method FillBlock<T>(a: array3<T>, idx: nat, block: seq<seq<T>>)
    requires idx < a.Length0 && |block| <= a.Length1 && Rectangular(block)
    requires |block| > 0 ==> |block[0]| <= a.Length2
    modifies a
    ensures forall k, i, j :: 0 <= k < a.Length0 && 0 <= i < a.Length1 && 0 <= j < a.Length2 ==>
              a[k, i, j] == (if k == idx && i < |block| && j < |block[0]| then block[i][j] else old(a[k, i, j]))
  {
    forall i, j | 0 <= i < |block| && 0 <= j < |block[0]| {
      a[idx, i, j] := block[i][j];
    }
  }

  /** The all-`false` block of the shape of `m`. */
  function FalseBlock(m: seq<seq<int>>): (b: seq<seq<bool>>)
    requires Rectangular(m)
    ensures |b| == |m| && Rectangular(b)
    ensures forall i, j :: 0 <= i < |m| && 0 <= j < |m[i]| ==> |b[i]| == |m[i]| && !b[i][j]
  {
    seq(|m|, i requires 0 <= i < |m| => seq(|m[i]|, _ => false))
  }

  /** The token buffer after the loop has copied the first `done` inputs. */
  ghost predicate TokensUpTo(tokens: array3<int>, mats: seq<seq<seq<int>>>, done: nat)
    requires TwoDimBatch(mats)
    reads tokens
  {
    && tokens.Length0 == |mats| && tokens.Length1 == MaxLen(mats)
    && tokens.Length2 == MaxLen(FirstRows(mats))
    && forall k, i, j :: 0 <= k < tokens.Length0 && 0 <= i < tokens.Length1 && 0 <= j < tokens.Length2 ==>
         tokens[k, i, j] == (if k < done then Cell(mats, k, i, j) else 0)
  }

  /** The mask after the loop has cleared the blocks of the first `done` inputs. */
  ghost predicate MaskUpTo(mask: array3<bool>, mats: seq<seq<seq<int>>>, done: nat)
    requires TwoDimBatch(mats)
    reads mask
  {
    && mask.Length0 == |mats| && mask.Length1 == MaxLen(mats)
    && mask.Length2 == MaxLen(FirstRows(mats))
    && forall k, i, j :: 0 <= k < mask.Length0 && 0 <= i < mask.Length1 && 0 <= j < mask.Length2 ==>
         (mask[k, i, j] <==> !(k < done && InBlock(mats, k, i, j)))
  }

  /** `torch.zeros((n, max rows, max first-row length))`. */
  method NewTokens(mats: seq<seq<seq<int>>>) returns (tokens: array3<int>)
    requires TwoDimBatch(mats)
    ensures fresh(tokens) && TokensUpTo(tokens, mats, 0)
  {
    tokens := new int[|mats|, MaxLen(mats), MaxLen(FirstRows(mats))]((k, i, j) => 0);
  }

  /** `torch.ones` of the token buffer's shape, as booleans. */
  method NewMask(mats: seq<seq<seq<int>>>) returns (mask: array3<bool>)
    requires TwoDimBatch(mats)
    ensures fresh(mask) && MaskUpTo(mask, mats, 0)
  {
    mask := new bool[|mats|, MaxLen(mats), MaxLen(FirstRows(mats))]((k, i, j) => true);
  }

  /** Once every input has been copied (and its block cleared), the buffers
      are the padded batch and its mask. */
  lemma BuffersDone(tokens: array3<int>, mask: array3<bool>, mats: seq<seq<seq<int>>>)
    requires TwoDimBatch(mats) && TokensUpTo(tokens, mats, |mats|)
    ensures PaddedTwoDim(tokens, mats)
    ensures MaskUpTo(mask, mats, |mats|) ==> PadMaskTwoDim(mask, mats)
  {
  }

  /** One step of the loop: `token_tensor[idx, :rows, :cols] = tensor`. */
  method CopyBlock(tokens: array3<int>, mats: seq<seq<seq<int>>>, idx: nat)
    requires TwoDimBatch(mats) && idx < |mats| && TokensUpTo(tokens, mats, idx)
    modifies tokens
    ensures TokensUpTo(tokens, mats, idx + 1)
  {
    BlocksFit(mats, idx);
    FillBlock(tokens, idx, mats[idx]);
  }

  /** One step of the loop: `mask_tensor[idx, :rows, :cols] = False`. */
  method ClearBlock(mask: array3<bool>, mats: seq<seq<seq<int>>>, idx: nat)
    requires TwoDimBatch(mats) && idx < |mats| && MaskUpTo(mask, mats, idx)
    modifies mask
    ensures MaskUpTo(mask, mats, idx + 1)
  {
    BlocksFit(mats, idx);
    FillBlock(mask, idx, FalseBlock(mats[idx]));
  }

  /** `zero_pad_batching_two_dim(tensor_list, return_mask)` with the mask
      allocated with the token buffer's shape. */
  method ZeroPadBatchingTwoDim(mats: seq<seq<seq<int>>>, returnMask: bool)
    returns (r: Result<(array3<int>, Option<array3<bool>>), PadError>)
    requires forall k :: 0 <= k < |mats| ==> Rectangular(mats[k])
    ensures mats == [] ==> r == Failure(EmptyBatch)
    ensures mats != [] && FirstEmpty(mats) < |mats| ==> r == Failure(EmptyMatrix(FirstEmpty(mats)))
    ensures mats != [] && FirstEmpty(mats) == |mats| ==> r.Success?
    ensures r.Success? ==> TwoDimBatch(mats) && fresh(r.value.0) && PaddedTwoDim(r.value.0, mats)
    ensures r.Success? ==> (r.value.1.Some? <==> returnMask)
    ensures r.Success? && r.value.1.Some? ==>
              fresh(r.value.1.value) && PadMaskTwoDim(r.value.1.value, mats)
  {
    if |mats| == 0 {
      return Failure(EmptyBatch);
    }
    var empty := FirstEmpty(mats);
    if empty < |mats| {
      return Failure(EmptyMatrix(empty));
    }
    var tokens := NewTokens(mats);
    var mask := NewMask(mats);
    for idx := 0 to |mats|
      invariant TokensUpTo(tokens, mats, idx)
      invariant MaskUpTo(mask, mats, if returnMask then idx else 0)
    {
      CopyBlock(tokens, mats, idx);
      if returnMask {
        ClearBlock(mask, mats, idx);
      }
    }
    BuffersDone(tokens, mask, mats);
    if returnMask {
      r := Success((tokens, Some(mask)));
    } else {
      r := Success((tokens, None));
    }
  }

  /** `zero_pad_batching_two_dim` as written: the mask is allocated with
      `torch.ones(token_tensor, ...)`, a tensor where a shape belongs, which
      raises before any value is copied. Only `return_mask=False` produces a
      result. */
  method ZeroPadBatchingTwoDimAsWritten(mats: seq<seq<seq<int>>>, returnMask: bool)
    returns (r: Result<array3<int>, PadError>)
    requires forall k :: 0 <= k < |mats| ==> Rectangular(mats[k])
    ensures mats == [] ==> r == Failure(EmptyBatch)
    ensures mats != [] && FirstEmpty(mats) < |mats| ==> r == Failure(EmptyMatrix(FirstEmpty(mats)))
    ensures TwoDimBatch(mats) && returnMask ==> r == Failure(MaskSizeIsTensor)
    ensures TwoDimBatch(mats) && !returnMask ==>
              r.Success? && fresh(r.value) && PaddedTwoDim(r.value, mats)
  {
    if |mats| == 0 {
      return Failure(EmptyBatch);
    }
    var empty := FirstEmpty(mats);
    if empty < |mats| {
      return Failure(EmptyMatrix(empty));
    }
    if returnMask {
      return Failure(MaskSizeIsTensor);
    }
    var padded := ZeroPadBatchingTwoDim(mats, false);
    r := Success(padded.value.0);
  }

  // ---------------------------------------------------------------------------
  // zero_pad_batching: dispatch on the rank of the first tensor
  // ---------------------------------------------------------------------------

  /** An input tensor: rank 1, rank 2, or any other rank (values not modelled). */
  datatype TensorIn =
    | Vector(v: seq<int>)
    | Matrix(m: seq<seq<int>>)
    | OtherRank(rank: nat)
  {
    predicate WellFormed()
    {
      match this
      case Vector(_) => true
      case Matrix(m) => Rectangular(m)
      case OtherRank(rank) => rank != 1 && rank != 2
    }

    function Rank(): (r: nat)
      ensures WellFormed() ==> (r == 1 <==> Vector?) && (r == 2 <==> Matrix?)
    {
      match this
      case Vector(_) => 1
      case Matrix(_) => 2
      case OtherRank(rank) => rank
    }
  }

  /** The index of the first tensor whose rank is not `rank`, or `|list|`. */
  function FirstOtherRank(list: seq<TensorIn>, rank: nat): (k: nat)
    ensures k <= |list|
    ensures k < |list| ==> list[k].Rank() != rank
    ensures forall j :: 0 <= j < k ==> list[j].Rank() == rank
  {
    if |list| == 0 then 0
    else if list[0].Rank() != rank then 0
    else
      var rest := FirstOtherRank(list[1..], rank);
      assert forall j :: 1 <= j < |list| ==> list[j] == list[1..][j - 1];
      1 + rest
  }

  function Vectors(list: seq<TensorIn>): (rows: seq<seq<int>>)
    requires forall k :: 0 <= k < |list| ==> list[k].Vector?
    ensures |rows| == |list| && forall k :: 0 <= k < |list| ==> rows[k] == list[k].v
  {
    seq(|list|, k requires 0 <= k < |list| => list[k].v)
  }

  function Matrices(list: seq<TensorIn>): (mats: seq<seq<seq<int>>>)
    requires forall k :: 0 <= k < |list| ==> list[k].Matrix? && list[k].WellFormed()
    ensures |mats| == |list|
    ensures forall k :: 0 <= k < |list| ==> list[k].Matrix? && mats[k] == list[k].m && Rectangular(mats[k])
  {
    assert forall k :: 0 <= k < |list| ==> list[k].WellFormed() && Rectangular(list[k].m) by {
      forall k | 0 <= k < |list|
        ensures Rectangular(list[k].m)
      {
        assert list[k].WellFormed();
      }
    }
    seq(|list|, k requires 0 <= k < |list| => list[k].m)
  }

  /** What `zero_pad_batching` returns: the token buffer and its mask. */
  datatype Padded =
    | PaddedOne(tokens: array2<int>, mask: array2<bool>)
    | PaddedTwo(tokens3: array3<int>, mask3: array3<bool>)

  /** `zero_pad_batching(tensor_list)`: the rank of the first tensor picks
      the one-dim or the two-dim path (both with the mask), any other rank
      raises `NotImplementedError`. */
  method ZeroPadBatching(list: seq<TensorIn>) returns (r: Result<Padded, PadError>)
    requires forall k :: 0 <= k < |list| ==> list[k].WellFormed()
    ensures list == [] ==> r == Failure(EmptyBatch)
    ensures list != [] && list[0].Rank() != 1 && list[0].Rank() != 2 ==>
              r == Failure(NotImplemented(list[0].Rank()))
    ensures list != [] && (list[0].Rank() == 1 || list[0].Rank() == 2)
            && FirstOtherRank(list, list[0].Rank()) < |list| ==>
              r == Failure(RankMismatch(FirstOtherRank(list, list[0].Rank())))
    ensures list != [] && FirstOtherRank(list, 1) == |list| ==>
              r.Success? && r.value.PaddedOne? && fresh(r.value.tokens) && fresh(r.value.mask)
              && Grid(r.value.tokens) == PaddedOneDim(Vectors(list))
              && Grid(r.value.mask) == PadMaskOneDim(Vectors(list))
    ensures list != [] && FirstOtherRank(list, 2) == |list| ==>
              var mats := Matrices(list);
              if FirstEmpty(mats) < |mats| then r == Failure(EmptyMatrix(FirstEmpty(mats)))
              else r.Success? && r.value.PaddedTwo? && fresh(r.value.tokens3) && fresh(r.value.mask3)
                   && PaddedTwoDim(r.value.tokens3, mats) && PadMaskTwoDim(r.value.mask3, mats)
  {
    if |list| == 0 {
      return Failure(EmptyBatch);
    }
    var rank := list[0].Rank();
    if rank != 1 && rank != 2 {
      return Failure(NotImplemented(rank));
    }
    var other := FirstOtherRank(list, rank);
    if other < |list| {
      return Failure(RankMismatch(other));
    }
    if rank == 1 {
      var one := ZeroPadBatchingOneDim(Vectors(list), true);
      r := Success(PaddedOne(one.value.0, one.value.1.value));
    } else {
      var mats := Matrices(list);
      var two := ZeroPadBatchingTwoDim(mats, true);
      if two.Failure? {
        return Failure(two.error);
      }
      r := Success(PaddedTwo(two.value.0, two.value.1.value));
    }
  }

  /** `zero_pad_batching(tensor_list)` as written: both paths are called with
      the default `return_mask=True`, so they take the mask path of the two
      Findings and no batch gets through. A rank-1 batch fails at the first
      mask write; a rank-2 batch fails on its first matrix without rows or,
      failing that, at the mask's allocation. */
  method ZeroPadBatchingAsWritten(list: seq<TensorIn>) returns (r: Result<Padded, PadError>)
    requires forall k :: 0 <= k < |list| ==> list[k].WellFormed()
    ensures r.Failure?
    ensures list == [] ==> r.error == EmptyBatch
    ensures list != [] && list[0].Rank() != 1 && list[0].Rank() != 2 ==>
              r.error == NotImplemented(list[0].Rank())
    ensures list != [] && (list[0].Rank() == 1 || list[0].Rank() == 2)
            && FirstOtherRank(list, list[0].Rank()) < |list| ==>
              r.error == RankMismatch(FirstOtherRank(list, list[0].Rank()))
    ensures list != [] && FirstOtherRank(list, 1) == |list| ==> r.error == MaskTooManyIndices
    ensures list != [] && FirstOtherRank(list, 2) == |list| ==>
              var mats := Matrices(list);
              r.error == if FirstEmpty(mats) < |mats| then EmptyMatrix(FirstEmpty(mats)) else MaskSizeIsTensor
  {
    if |list| == 0 {
      return Failure(EmptyBatch);
    }
    var rank := list[0].Rank();
    if rank != 1 && rank != 2 {
      return Failure(NotImplemented(rank));
    }
    var other := FirstOtherRank(list, rank);
    if other < |list| {
      return Failure(RankMismatch(other));
    }
    if rank == 1 {
      var one := ZeroPadBatchingOneDimAsWritten(Vectors(list), true);
      r := Failure(one.error);
    } else {
      var two := ZeroPadBatchingTwoDimAsWritten(Matrices(list), true);
      r := Failure(two.error);
    }
  }

  // ---------------------------------------------------------------------------
  // att_mask_from_individual_masks
  // ---------------------------------------------------------------------------

  /** The batch size of an elementwise product of two batches under
      broadcasting: equal sizes, or a size of 1 stretched to the other. */
  function BroadcastBatch(bt: nat, bs: nat): (r: Option<nat>)
    ensures r.Some? <==> (bt == bs || bt == 1 || bs == 1)
    ensures r.Some? && bt != 1 ==> r.value == bt
    ensures r.Some? && bs != 1 ==> r.value == bs
  {
    if bt == bs then Some(bt)
    else if bt == 1 then Some(bs)
    else if bs == 1 then Some(bt)
    else None
  }

  /** The row of a batch that batch item `b` reads: row 0 when the batch
      has a single row that is broadcast, row `b` otherwise. */
  function Source(size: nat, b: nat): nat
  {
    if size == 1 then 0 else b
  }

  /** `att_mask_from_individual_masks(tgt_mask, src_mask)` for masks of shape
      (bsz, tgt_len) and (bsz, src_len): the target mask repeated along the
      source axis times the source mask repeated along the target axis. */
  function AttMask(tgt: seq<seq<int>>, src: seq<seq<int>>): (r: Result<seq<seq<seq<int>>>, PadError>)
    requires Rectangular(tgt) && Rectangular(src)
    ensures r.Success? <==> BroadcastBatch(|tgt|, |src|).Some?
    ensures r.Failure? ==> r.error == BatchMismatch(|tgt|, |src|)
    ensures r.Success? ==> |r.value| == BroadcastBatch(|tgt|, |src|).value
    ensures r.Success? ==> forall b :: 0 <= b < |r.value| ==>
              |r.value[b]| == Cols(tgt) && forall i :: 0 <= i < Cols(tgt) ==> |r.value[b][i]| == Cols(src)
    ensures r.Success? ==> forall b, i, j :: 0 <= b < |r.value| && 0 <= i < Cols(tgt) && 0 <= j < Cols(src) ==>
              Source(|tgt|, b) < |tgt| && Source(|src|, b) < |src|
              && r.value[b][i][j] == tgt[Source(|tgt|, b)][i] * src[Source(|src|, b)][j]
  {
    match BroadcastBatch(|tgt|, |src|)
    case None => Failure(BatchMismatch(|tgt|, |src|))
    case Some(bsz) =>
      var tl, sl := Cols(tgt), Cols(src);
      assert forall b :: 0 <= b < bsz ==> Source(|tgt|, b) < |tgt| && Source(|src|, b) < |src|;
      assert forall b :: 0 <= b < bsz ==> |tgt[Source(|tgt|, b)]| == tl && |src[Source(|src|, b)]| == sl;
      var out := seq(bsz, b requires 0 <= b < bsz =>
        seq(tl, i requires 0 <= i < tl =>
          seq(sl, j requires 0 <= j < sl => tgt[Source(|tgt|, b)][i] * src[Source(|src|, b)][j])));
      assert forall b, i, j :: 0 <= b < bsz && 0 <= i < tl && 0 <= j < sl ==>
        out[b][i][j] == tgt[Source(|tgt|, b)][i] * src[Source(|src|, b)][j];
      Success(out)
  }

  /** The 0/1 mask of real (copied) positions: what a caller passes to
      `att_mask_from_individual_masks` as `(~mask).long()` for the padding
      mask `PadMaskOneDim` that the one-dim padding returns. */
  function ValidMask(rows: seq<seq<int>>): (v: seq<seq<int>>)
    ensures |v| == |rows| && Rectangular(v)
    ensures forall i :: 0 <= i < |rows| ==> |v[i]| == MaxLen(rows)
    ensures forall i, j :: 0 <= i < |rows| && 0 <= j < MaxLen(rows) ==> v[i][j] == if j < |rows[i]| then 1 else 0
  {
    var m := PadMaskOneDim(rows);
    seq(|rows|, i requires 0 <= i < |rows| =>
      seq(MaxLen(rows), j requires 0 <= j < MaxLen(rows) => if m[i][j] then 0 else 1))
  }

  /** Combining the real-position masks of two padded batches of one size:
      entry (b, i, j) is 1 exactly when target position i and source
      position j of item b both hold copied values, and 0 otherwise. */
  lemma AttMaskOfPaddedBatches(tgtRows: seq<seq<int>>, srcRows: seq<seq<int>>, b: nat, i: nat, j: nat)
    requires |tgtRows| == |srcRows| && b < |tgtRows|
    requires i < MaxLen(tgtRows) && j < MaxLen(srcRows)
    ensures var r := AttMask(ValidMask(tgtRows), ValidMask(srcRows));
            r.Success? && |r.value| == |tgtRows|
            && r.value[b][i][j] == (if i < |tgtRows[b]| && j < |srcRows[b]| then 1 else 0)
  {
    var t, s := ValidMask(tgtRows), ValidMask(srcRows);
    assert Cols(t) == MaxLen(tgtRows) && Cols(s) == MaxLen(srcRows);
    assert BroadcastBatch(|t|, |s|) == Some(|t|);
    assert Source(|t|, b) == b && Source(|s|, b) == b;
    var r := AttMask(t, s);
    assert r.value[b][i][j] == t[b][i] * s[b][j];
    assert t[b][i] == (if i < |tgtRows[b]| then 1 else 0);
    assert s[b][j] == (if j < |srcRows[b]| then 1 else 0);
  }
}
