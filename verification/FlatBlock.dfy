/** Vectors of one dimension laid out back to back in a single block. */
module FlatBlock {
  import opened Prelude

  /** Slot `slot` of the block. */
  function Row(data: seq<real>, dim: nat, slot: nat): (r: Vector)
    requires (slot + 1) * dim <= |data|
    ensures |r| == dim
  {
    RowStart(dim, slot);
    data[slot * dim..(slot + 1) * dim]
  }

  lemma RowStart(dim: nat, slot: nat)
    ensures 0 <= slot * dim && slot * dim + dim == (slot + 1) * dim
  {
  }

  lemma RowFits(dim: nat, slot: nat, n: nat)
    requires slot < n
    ensures (slot + 1) * dim <= n * dim
  {
    assert n * dim == (slot + 1) * dim + (n - slot - 1) * dim;
  }

  /** Row `slot` of a block that holds `n` rows. */
  function At(data: seq<real>, dim: nat, n: nat, slot: nat): (v: Vector)
    requires |data| == n * dim && slot < n
    ensures |v| == dim
  {
    RowFits(dim, slot, n);
    Row(data, dim, slot)
  }

  /** Appending a vector adds a last row and keeps the others. */
  lemma RowAppend(data: seq<real>, dim: nat, n: nat, v: Vector, slot: nat)
    requires |data| == n * dim && |v| == dim && slot <= n
    ensures |data + v| == (n + 1) * dim && (slot + 1) * dim <= |data + v|
    ensures slot < n ==> (slot + 1) * dim <= |data|
    ensures Row(data + v, dim, slot) == if slot < n then Row(data, dim, slot) else v
  {
    RowStart(dim, n);
    RowStart(dim, slot);
    if slot < n { RowFits(dim, slot, n); }
  }

  /** The block after moving the last row into `slot` and cutting the block by one row. */
  function SwapRemoved(data: seq<real>, dim: nat, n: nat, slot: nat): seq<real>
    requires |data| == n * dim && slot < n
  {
    RowStart(dim, slot);
    RowStart(dim, n - 1);
    RowFits(dim, slot, n);
    if slot == n - 1 then data[..(n - 1) * dim]
    else
      RowFits(dim, slot, n - 1);
      data[..slot * dim] + Row(data, dim, n - 1) + data[(slot + 1) * dim..(n - 1) * dim]
  }

  lemma SwapRemovedSize(data: seq<real>, dim: nat, n: nat, slot: nat)
    requires |data| == n * dim && slot < n
    ensures |SwapRemoved(data, dim, n, slot)| == (n - 1) * dim
  {
    RowStart(dim, slot);
    RowFits(dim, slot, n);
    if slot < n - 1 { RowFits(dim, slot, n - 1); }
  }

  lemma SwapRemovedRow(data: seq<real>, dim: nat, n: nat, slot: nat, s: nat)
    requires |data| == n * dim && slot < n && s < n - 1
    ensures |SwapRemoved(data, dim, n, slot)| == (n - 1) * dim
    ensures (s + 1) * dim <= (n - 1) * dim <= n * dim
    ensures Row(SwapRemoved(data, dim, n, slot), dim, s) ==
      (RowFits(dim, n - 1, n); RowFits(dim, s, n); if s == slot then Row(data, dim, n - 1) else Row(data, dim, s))
  {
    SwapRemovedSize(data, dim, n, slot);
    RowStart(dim, slot);
    RowStart(dim, n - 1);
    RowStart(dim, s);
    RowFits(dim, s, n - 1);
    RowFits(dim, n - 2, n);
    RowFits(dim, n - 1, n);
    RowFits(dim, slot, n);
    RowFits(dim, s, n);
    if slot < n - 1 {
      RowFits(dim, slot, n - 1);
      SplicedRow(data, dim, n, slot, s);
    }
  }

  lemma SplicedRow(data: seq<real>, dim: nat, n: nat, slot: nat, s: nat)
    requires |data| == n * dim && slot < n - 1 && s < n - 1
    requires (slot + 1) * dim <= (n - 1) * dim && (n - 1 + 1) * dim <= |data| && slot * dim + dim == (slot + 1) * dim
    requires s * dim + dim == (s + 1) * dim <= (n - 1) * dim && 0 <= slot * dim
    ensures var out := data[..slot * dim] + Row(data, dim, n - 1) + data[(slot + 1) * dim..(n - 1) * dim];
      && |out| == (n - 1) * dim
      && Row(out, dim, s) == if s == slot then Row(data, dim, n - 1) else Row(data, dim, s)
  {
    if s < slot { RowFits(dim, s, slot); }
    if slot < s { RowFits(dim, slot, s); }
    Splice(data, slot * dim, (slot + 1) * dim, (n - 1) * dim, Row(data, dim, n - 1), s * dim, (s + 1) * dim);
  }

  lemma Splice(data: seq<real>, a: nat, b: nat, e: nat, row: seq<real>, i: nat, j: nat)
    requires a + |row| == b <= e <= |data| && i <= j <= e
    requires (i == a && j == b) || j <= a || b <= i
    ensures var out := data[..a] + row + data[b..e];
      |out| == e && (i == a && j == b ==> out[i..j] == row) && (j <= a || b <= i ==> out[i..j] == data[i..j])
  {
    var out := data[..a] + row + data[b..e];
    forall k | 0 <= k < e
      ensures out[k] == if k < a then data[k] else if k < b then row[k - a] else data[k]
    {}
  }
}
