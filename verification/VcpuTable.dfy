// vcpu.c:12-81 in place: the bitmap of vcpu numbers and the array of vcpus of one instance.  Lifecycle runs the same
// sections from many threads.

module VcpuTable {
  import opened Lifecycle

  const NULL: nat := 0

  class Instance {
    const bitmap: array<bool>
    const vcpus: array<nat>

    /** A vcpu is only listed under a number whose bit is set. */
    ghost predicate Valid()
      reads this, bitmap, vcpus
    {
      && bitmap.Length == VM_MAX_VCPUS && vcpus.Length == VM_MAX_VCPUS
      && forall i :: 0 <= i < VM_MAX_VCPUS && vcpus[i] != NULL ==> bitmap[i]
    }

    ghost function Bits(): set<nat>
      reads this, bitmap
      requires bitmap.Length == VM_MAX_VCPUS
    {
      set i: nat | i < VM_MAX_VCPUS && bitmap[i]
    }

    constructor ()
      ensures Valid() && fresh(bitmap) && fresh(vcpus) && Bits() == {}
      ensures forall i :: 0 <= i < VM_MAX_VCPUS ==> vcpus[i] == NULL
    {
      bitmap := new bool[VM_MAX_VCPUS](_ => false);
      vcpus := new nat[VM_MAX_VCPUS](_ => NULL);
    }

    /** The lowest free number is claimed, or there is none. */
    method AllocateVcpuNo() returns (n: int)
      requires Valid()
      modifies bitmap
      ensures Valid() && -1 <= n
      ensures n < 0 <==> forall k :: 0 <= k < VM_MAX_VCPUS ==> k in old(Bits())
      ensures n < 0 ==> Bits() == old(Bits())
      ensures n >= 0 ==> FirstZero(old(Bits()), n) && Bits() == old(Bits()) + {n} && vcpus[n] == NULL
    {
      n := 0;
      while n < VM_MAX_VCPUS && bitmap[n]
        invariant 0 <= n <= VM_MAX_VCPUS && forall k :: 0 <= k < n ==> bitmap[k]
      {
        n := n + 1;
      }
      if n < VM_MAX_VCPUS {
        bitmap[n] := true;
        assert Bits() == old(Bits()) + {n};
      } else {
        n := -1;
      }
    }

    method FreeVcpuNo(n: int)
      requires Valid() && n < VM_MAX_VCPUS && (n >= 0 ==> vcpus[n] == NULL)
      modifies bitmap
      ensures Valid() && Bits() == old(Bits()) - {n}
    {
      if n >= 0 {
        bitmap[n] := false;
      }
      assert Bits() == old(Bits()) - {n};
    }

    /** vcpu_alloc, when creation gives made, NULL if it fails: a failure leaves nothing behind. */
    method Alloc(made: nat) returns (n: int)
      requires Valid()
      modifies bitmap, vcpus
      ensures Valid() && -1 <= n < VM_MAX_VCPUS
      ensures n >= 0 <==> made != NULL && exists k: nat :: k < VM_MAX_VCPUS && k !in old(Bits())
      ensures n < 0 ==> Bits() == old(Bits()) && vcpus[..] == old(vcpus[..])
      ensures n >= 0 ==>
                FirstZero(old(Bits()), n) && Bits() == old(Bits()) + {n} && vcpus[..] == old(vcpus[..])[n := made]
    {
      n := AllocateVcpuNo();
      if n < 0 { return; }
      assert n !in old(Bits());
      if made == NULL {
        FreeVcpuNo(n);
        n := -1;
        return;
      }
      vcpus[n] := made;
    }

    /** vcpu_release up to the call of destroy, which gets v.  Releasing what Alloc made undoes it. */
    method Release(n: nat) returns (v: nat)
      requires Valid() && n < VM_MAX_VCPUS
      modifies bitmap, vcpus
      ensures Valid() && v == old(vcpus[n]) && vcpus[n] == NULL
      ensures v == NULL ==> Bits() == old(Bits()) && vcpus[..] == old(vcpus[..])
      ensures v != NULL ==> Bits() == old(Bits()) - {n} && vcpus[..] == old(vcpus[..])[n := NULL]
    {
      v := vcpus[n];
      if v == NULL { return; }
      bitmap[n] := false;
      vcpus[n] := NULL;
      assert Bits() == old(Bits()) - {n};
    }

    method AllocThenRelease(made: nat)
      requires Valid() && made != NULL
      modifies bitmap, vcpus
      ensures Valid() && Bits() == old(Bits()) && vcpus[..] == old(vcpus[..])
    {
      var n := Alloc(made);
      if n >= 0 {
        assert n !in old(Bits());
        var v := Release(n);
        assert v == made;
        assert vcpus[..] == old(vcpus[..]);
      }
    }
  }
}
