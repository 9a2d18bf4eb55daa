/**
 * The permission arithmetic of duppage (lib/fork.c:89-101): which
 * permission a page is installed with in the child, and whether the parent
 * is remapped with it.
 */
module Perms {
  import opened Layouts

  /** `*pte & PTE_SYSCALL`: the bits of a PTE a user program may hand back to the kernel. */
  function Masked(L: Layout, pte: Bits): (perm: Bits)
    requires L.Valid()
    ensures perm <= L.syscall
    ensures forall b :: b in L.syscall ==> (b in perm <==> b in pte)
    ensures forall b :: b in {L.P, L.W, L.U, L.Share, COW} ==> (b in perm <==> b in pte)
  {
    pte * L.syscall
  }

  /**
   * The permission duppage installs: a PTE_SHARE page keeps its permission;
   * otherwise a writable page loses PTE_W and gains PTE_COW, and any other
   * page keeps its permission.
   */
  function DupPerm(L: Layout, perm: Bits): (p: Bits)
    requires L.Valid()
    // a shared page is passed on unchanged
    ensures L.Share in perm ==> p == perm
    // a private writable page becomes copy-on-write and read-only, every other bit kept
    ensures L.Share !in perm && L.W in perm ==>
      L.W !in p && COW in p && p - {L.W, COW} == perm - {L.W, COW}
    // a private read-only page is passed on unchanged
    ensures L.Share !in perm && L.W !in perm ==> p == perm
  {
    if L.Share in perm then perm
    else if L.W in perm then Flip(perm, L.W) + {COW}
    else perm
  }

  /** duppage remaps the parent exactly when the page is private and ends up copy-on-write. */
  predicate RemapsParent(L: Layout, perm: Bits): (b: bool)
    requires L.Valid()
    ensures b <==> L.Share !in perm && (L.W in perm || COW in perm)
  {
    L.Share !in perm && COW in DupPerm(L, perm)
  }

  /** A private page never ends up directly writable; it is remapped iff it was writable or copy-on-write. */
  lemma PrivatePageNotWritable(L: Layout, perm: Bits)
    requires L.Valid() && L.Share !in perm
    ensures L.W !in DupPerm(L, perm)
    ensures RemapsParent(L, perm) <==> L.W in perm || COW in perm
  {
  }

  /** The installed permission is still one the kernel accepts, keeps PTE_P, PTE_U and PTE_SHARE, and never adds PTE_W. */
  lemma DupPermIsUserPerm(L: Layout, perm: Bits)
    requires L.Valid() && perm <= L.syscall
    ensures DupPerm(L, perm) <= L.syscall
    ensures (L.P in DupPerm(L, perm) <==> L.P in perm) && (L.U in DupPerm(L, perm) <==> L.U in perm)
    ensures L.Share in DupPerm(L, perm) <==> L.Share in perm
    ensures L.W in DupPerm(L, perm) ==> L.W in perm
  {
  }
}
