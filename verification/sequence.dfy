/** The message sequence-id counter kept by every endpoint and trigger:
    each call stores and returns `(prev + 1) % math.MaxUint32`, the sum
    computed in `uint32` arithmetic. */
module Sequence {
  import opened Ints

  /** The id issued after `s`. The sum wraps at 2^32 before the remainder
      is taken, so even the unreachable `s == MaxUint32` gives 0. */
  function Next(s: uint32): (r: uint32)
    ensures r < MaxUint32
    ensures s < MaxUint32 - 1 ==> r == s + 1
    ensures s >= MaxUint32 - 1 ==> r == 0
  {
    ToUint32(s + 1) % MaxUint32
  }

  /** The id after `k` further calls. */
  function Advance(s: uint32, k: nat): uint32
    decreases k
  {
    if k == 0 then s else Next(Advance(s, k - 1))
  }

  /** Issuing one id and then `k` more is issuing `k + 1`. */
  lemma {:induction false} AdvanceNext(s: uint32, k: nat)
    ensures Advance(Next(s), k) == Advance(s, k + 1)
    decreases k
  {
    if k > 0 {
      AdvanceNext(s, k - 1);
    }
  }

  lemma NextValues()
    ensures Next(0) == 1
    ensures Next(MaxUint32 - 1) == 0
    ensures Next(MaxUint32) == 0
  {
  }

  /** Counting from any id below `MaxUint32`, the counter runs modulo
      `MaxUint32`. */
  lemma {:induction false} AdvanceModular(s: uint32, k: nat)
    requires s < MaxUint32
    ensures Advance(s, k) == (s + k) % MaxUint32
    decreases k
  {
    if k > 0 {
      AdvanceModular(s, k - 1);
      var p := Advance(s, k - 1);
      var q := (s + k - 1) / MaxUint32;
      assert s + k - 1 == MaxUint32 * q + p;
      if p < MaxUint32 - 1 {
        DivUnique(s + k, MaxUint32, q, p + 1);
      } else {
        DivUnique(s + k, MaxUint32, q + 1, 0);
      }
    }
  }

  /** Fewer than `MaxUint32` successive calls never repeat an id. */
  lemma IdsDistinct(s: uint32, j: nat, k: nat)
    requires s < MaxUint32 && j < k < MaxUint32
    ensures Advance(s, j) != Advance(s, k)
  {
    AdvanceModular(s, j);
    AdvanceModular(s, k);
    var qj, qk := (s + j) / MaxUint32, (s + k) / MaxUint32;
    if Advance(s, j) == Advance(s, k) {
      assert k - j == MaxUint32 * (qk - qj);
      MulAwayFromZero(MaxUint32, qk - qj);
      assert false;
    }
  }
}
