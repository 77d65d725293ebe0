/** Options, bytes, cells laid end to end, and insertion into and removal from a sequence at a position. */
module Seqs {

  datatype Option<T> = None | Some(value: T)

  newtype Byte = b: int | 0 <= b < 256

  function Spliced<T>(s: seq<T>, k: nat, x: T): (r: seq<T>)
    requires k <= |s|
    ensures |r| == |s| + 1
    ensures forall j | 0 <= j < |r| :: r[j] == if j < k then s[j] else if j == k then x else s[j - 1]
  {
    s[..k] + [x] + s[k..]
  }

  function Dropped<T>(s: seq<T>, k: nat): (r: seq<T>)
    requires k < |s|
    ensures |r| == |s| - 1
    ensures forall j | 0 <= j < |r| :: r[j] == if j < k then s[j] else s[j + 1]
  {
    s[..k] + s[k + 1..]
  }

  lemma {:induction false} SplicedTail<T>(s: seq<T>, k: nat, x: T)
    requires 0 < k <= |s|
    ensures Spliced(s, k, x) == [s[0]] + Spliced(s[1..], k - 1, x)
  {
  }

  lemma {:induction false} Associative<T>(a: seq<T>, b: seq<T>, c: seq<T>)
    ensures a + (b + c) == a + b + c
  {
  }

  /** Cells of one size laid end to end do not overlap. */
  lemma {:induction false} CellsApart(j: nat, k: nat, size: nat)
    requires j < k
    ensures j * size + size <= k * size
  {
    assert (k - j - 1) * size >= 0;
    assert k * size == j * size + size + (k - j - 1) * size;
  }
}
