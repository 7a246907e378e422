/** The growable bit vector (`bitvec::BitVec`) that `BinaryMemory` keeps
    twice: an array of bits of which the first `len` are in use. Only the
    operations the index calls are modelled: `len`, indexing, `set`,
    `resize`, `truncate`, `clear`, `count_ones` and `last_one`. */
module BitVecs {
  import opened Wrappers
  import opened BinaryModel

  class BitVec {
    var data: array<bool>
    var len: nat
    ghost var Repr: set<object>

    ghost predicate Valid()
      reads this, Repr
    {
      Repr == {this, data} && len <= data.Length
    }

    /** The bits in use. */
    ghost function Bits(): (bits: seq<bool>)
      reads this, Repr
      requires Valid()
      ensures |bits| == len
    {
      data[..len]
    }

    constructor ()
      ensures Valid() && fresh(Repr) && Bits() == []
    {
      data := new bool[0];
      len := 0;
      Repr := {this, data};
    }

    function Get(i: nat): (b: bool)
      reads this, Repr
      requires Valid() && i < len
      ensures b == Bits()[i]
    {
      data[i]
    }

    method Set(i: nat, b: bool)
      requires Valid() && i < len
      modifies Repr
      ensures Valid() && Repr == old(Repr)
      ensures Bits() == old(Bits())[i := b]
    {
      data[i] := b;
    }

    /** `resize(n, value)`: cuts to `n` bits, or appends copies of `value`
        up to `n` bits, reallocating the storage when it is too small. */
    method Resize(n: nat, value: bool)
      requires Valid()
      modifies Repr
      ensures Valid() && fresh(Repr - old(Repr))
      ensures Bits() == if n <= old(len) then old(Bits())[..n] else old(Bits()) + seq(n - old(len), _ => value)
    {
      if n <= len {
        len := n;
        return;
      }
      Reserve(n);
      var j := len;
      while j < n
        invariant len <= j <= n <= data.Length
        invariant data[..len] == old(Bits())
        invariant forall k :: len <= k < j ==> data[k] == value
        modifies data
      {
        data[j] := value;
        j := j + 1;
      }
      len := n;
    }

    /** Reallocates the storage to hold at least `n` bits, keeping the bits
        in use. */
    method Reserve(n: nat)
      requires Valid()
      modifies this
      ensures Valid() && fresh(Repr - old(Repr)) && n <= data.Length
      ensures len == old(len) && Bits() == old(Bits())
    {
      if data.Length < n {
        var grown := new bool[n];
        var i := 0;
        while i < len
          invariant 0 <= i <= len
          invariant grown[..i] == data[..i]
          modifies grown
        {
          grown[i] := data[i];
          i := i + 1;
        }
        data := grown;
        Repr := {this, data};
      }
    }

    method Truncate(n: nat)
      requires Valid()
      modifies this
      ensures Valid() && Repr == old(Repr)
      ensures Bits() == if n < old(len) then old(Bits())[..n] else old(Bits())
    {
      if n < len {
        len := n;
      }
    }

    method Clear()
      requires Valid()
      modifies this
      ensures Valid() && Repr == old(Repr) && Bits() == []
    {
      len := 0;
    }

    method CountOnes() returns (count: nat)
      requires Valid()
      ensures count == Ones(Bits())
    {
      count := 0;
      var i := 0;
      while i < len
        invariant 0 <= i <= len
        invariant count == Ones(data[..i])
      {
        assert data[..i + 1][..i] == data[..i];
        if data[i] {
          count := count + 1;
        }
        i := i + 1;
      }
      assert data[..len] == Bits();
    }

    /** The index of the last set bit, scanning from the end. */
    method LastOne() returns (last: Option<nat>)
      requires Valid()
      ensures last == BinaryModel.LastOne(Bits())
    {
      var i := len;
      while i > 0
        invariant 0 <= i <= len
        invariant BinaryModel.LastOne(Bits()) == BinaryModel.LastOne(data[..i])
      {
        assert data[..i][..i - 1] == data[..i - 1];
        if data[i - 1] {
          return Some(i - 1);
        }
        i := i - 1;
      }
      last := None;
    }
  }
}
