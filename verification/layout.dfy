/**
 * The memory-layout and page-table-entry constants that lib/fork.c relies on.
 *
 * A 32-bit flag word is represented by the set of positions of its 1-bits
 * (`Bits`), so `a & b` is `a * b`, `a | b` is `a + b`, and a flag constant
 * such as PTE_W, a single bit, is given by its position.
 *
 * The page size and the span of one page table are the x86 values (4 KiB
 * pages, 1024 entries per table).  Every other constant comes from headers
 * that are not part of this model, so it is a field of `Layout`, and
 * `Layout.Valid()` states exactly what the fork code assumes about it.
 */
module Layouts {
  /** A 32-bit flag word, as the set of positions of its 1-bits. */
  type Bits = set<nat>

  /** PGSIZE: bytes in one page. */
  const PGSIZE: nat := 4096
  /** PTSIZE: bytes mapped by one page-directory entry; PDX(va) is va / PTSIZE. */
  const PTSIZE: nat := 0x40_0000
  /** One past the largest 32-bit virtual address (uintptr_t). */
  const ADDR_LIMIT: nat := 0x1_0000_0000
  /** PTE_COW is 0x800: bit 11, one of the PTE bits left to user programs. */
  const COW: nat := 11

  /** `bits ^ (1 << b)`: flip one bit. */
  function Flip(bits: Bits, b: nat): (r: Bits)
    ensures b in r <==> b !in bits
    ensures forall x :: x != b ==> (x in r <==> x in bits)
  {
    if b in bits then bits - {b} else bits + {b}
  }

  datatype Layout = Layout(
    utop: nat,          // UTOP: top of the user-managed part of the address space
    uxstackTop: nat,    // UXSTACKTOP: top of the one-page user exception stack
    pfTemp: nat,        // PFTEMP: scratch page used by the fault handler
    upcallEntry: nat,   // address of the assembly trampoline _pgfault_upcall
    P: nat,             // bit of PTE_P
    W: nat,             // bit of PTE_W
    U: nat,             // bit of PTE_U
    Share: nat,         // bit of PTE_SHARE
    syscall: Bits,      // PTE_SYSCALL: the PTE bits a user program may pass to the kernel
    fecWr: nat)         // bit of FEC_WR, "the fault was a write", in the fault error code
  {
    /** The assumptions lib/fork.c makes about the constants it does not define. */
    ghost predicate Valid() {
      // the user part of the address space is page-aligned and fits in 32 bits
      && 0 < utop < ADDR_LIMIT && utop % PGSIZE == 0
      // the exception-stack page is page-aligned and lies below UTOP
      && PGSIZE <= uxstackTop && uxstackTop % PGSIZE == 0 && uxstackTop - PGSIZE < utop
      // the scratch page is page-aligned and lies below UTOP
      && pfTemp % PGSIZE == 0 && pfTemp < utop
      // PTE_P, PTE_W, PTE_U, PTE_SHARE and PTE_COW are distinct bits of a 32-bit word ...
      && P < 32 && W < 32 && U < 32 && Share < 32 && fecWr < 32
      && P != W && P != U && P != Share && P != COW
      && W != U && W != Share && W != COW
      && U != Share && U != COW
      && Share != COW
      // ... and all five survive the PTE_SYSCALL mask
      && {P, W, U, Share, COW} <= syscall
    }

    /** UXSTACKTOP - PGSIZE: the address of the exception-stack page. */
    function XStackPage(): nat
      requires Valid()
    {
      uxstackTop - PGSIZE
    }

    /** PTE_P|PTE_U|PTE_W: a present, user-accessible, writable page. */
    function PUW(): Bits {
      {P, U, W}
    }
  }
}
