/**
 * One environment's two-level page table, as the fork code sees it through
 * the read-only self-mapping (uvpd / uvpt): a word of flags per page-directory
 * slot, and a (frame, flags) entry per page-aligned virtual address.
 */
module PageTables {
  import opened Common
  import opened Layouts

  /** A physical page, named by an abstract number. */
  type Frame = nat

  /** A page-table entry: the frame it maps and its flag bits. */
  datatype Pte = Pte(frame: Frame, bits: Bits)

  /**
   * An address space.  `pdes` maps a directory index PDX(va) to the PDE's
   * flag bits; `ptes` maps a page-aligned virtual address to its entry.
   * A slot missing from either map reads as the all-zero word, {}.
   */
  datatype Space = Space(pdes: map<nat, Bits>, ptes: map<nat, Pte>)

  const EmptySpace: Space := Space(map[], map[])

  /** PDX(va): the page-directory slot covering va. */
  function Pdx(va: nat): nat {
    va / PTSIZE
  }

  /** ROUNDDOWN(va, PGSIZE). */
  function RoundDown(va: nat): (pg: nat)
    ensures pg % PGSIZE == 0 && pg <= va < pg + PGSIZE
    ensures Pdx(pg) == Pdx(va)
  {
    var pg := va - va % PGSIZE;
    assert Pdx(pg) == Pdx(va) by {
      var q, r := va / PTSIZE, va % PTSIZE;
      assert va == q * PTSIZE + r && r < PTSIZE;
      assert va % PGSIZE == r % PGSIZE;
    }
    pg
  }

  /** The PDE word for va, as read through uvpd: the slot's flags, or the zero word when the slot is missing. */
  function PdeBits(s: Space, va: nat): Bits {
    if Pdx(va) in s.pdes then s.pdes[Pdx(va)] else {}
  }

  /** The PTE word for the page holding va, as read through uvpt: that entry's flags, or the zero word when there is none. */
  function PteBits(s: Space, va: nat): Bits {
    var pg := RoundDown(va);
    if pg in s.ptes then s.ptes[pg].bits else {}
  }

  /**
   * What the two reads return: the directory slot's flags, or the entry's
   * flags for the page holding va, and the zero word when there is none.
   * Every address in one page reads the same entry.
   */
  lemma FlagWords(s: Space, va: nat)
    ensures Pdx(va) in s.pdes ==> PdeBits(s, va) == s.pdes[Pdx(va)]
    ensures Pdx(va) !in s.pdes ==> PdeBits(s, va) == {}
    ensures Lookup(s, RoundDown(va)).Some? ==> PteBits(s, va) == Lookup(s, RoundDown(va)).value.bits
    ensures Lookup(s, RoundDown(va)).None? ==> PteBits(s, va) == {}
    ensures PteBits(s, RoundDown(va)) == PteBits(s, va) && PdeBits(s, RoundDown(va)) == PdeBits(s, va)
  {
    assert RoundDown(RoundDown(va)) == RoundDown(va);
  }

  /** The entry installed at va, if any. */
  function Lookup(s: Space, va: nat): Option<Pte> {
    if va in s.ptes then Some(s.ptes[va]) else None
  }

  /**
   * How the kernel installs `pte` at the page-aligned address va: the entry
   * replaces whatever was there, and a directory slot without PTE_P first
   * receives a new page table with PTE_P|PTE_W|PTE_U.
   */
  function Install(L: Layout, s: Space, va: nat, pte: Pte): (t: Space)
    ensures Lookup(t, va) == Some(pte)
    ensures forall w :: w != va ==> Lookup(t, w) == Lookup(s, w)
    ensures L.P in PdeBits(t, va)
    ensures L.P in PdeBits(s, va) ==> t.pdes == s.pdes
    ensures L.P !in PdeBits(s, va) ==> PdeBits(t, va) == L.PUW()
    ensures forall x :: x != Pdx(va) ==> (x in t.pdes <==> x in s.pdes) && (x in s.pdes ==> t.pdes[x] == s.pdes[x])
  {
    var pdes := if L.P in PdeBits(s, va) then s.pdes else s.pdes[Pdx(va) := L.PUW()];
    Space(pdes, s.ptes[va := pte])
  }

  /** Every installed entry lies under a directory slot with PTE_P, as in a real two-level table. */
  ghost predicate TablesPresent(L: Layout, s: Space) {
    forall w :: w in s.ptes ==> L.P in PdeBits(s, w)
  }

  /**
   * Install keeps every entry under a present directory slot.  So on such an
   * address space a slot without PTE_P covers no entry, and keeping the
   * other entries when a new page table is created drops nothing the kernel
   * would have kept.
   */
  lemma InstallKeepsTables(L: Layout, s: Space, va: nat, pte: Pte)
    requires TablesPresent(L, s)
    ensures TablesPresent(L, Install(L, s, va, pte))
    ensures L.P !in PdeBits(s, va) ==> forall w :: w in s.ptes ==> Pdx(w) != Pdx(va)
  {
    var t := Install(L, s, va, pte);
    forall w | w in t.ptes
      ensures L.P in PdeBits(t, w)
    {
      if w != va && Pdx(w) != Pdx(va) {
        assert Lookup(t, w) == Lookup(s, w);
      }
    }
  }
}
