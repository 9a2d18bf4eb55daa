/**
 * User-space copy-on-write fork (lib/fork.c): duppage, pgfault, fork and
 * sfork.  Each operation is a method over the `Machine` that performs the
 * same checks and kernel calls in the same order as the C code, and is
 * proved equal to a pure specification over `State` (DupPageSpec,
 * PgFaultSpec, ForkParentSpec); ForkProperties proves what those
 * specifications guarantee.
 */
module Fork {
  import opened Common
  import opened Layouts
  import opened PageTables
  import opened Kernel
  import opened Perms

  /** Why the code panics. */
  datatype Panic =
    | NotWriteFault           // pgfault: error code lacks FEC_WR
    | PdeNotPresent           // pgfault: page table doesn't exist
    | PdeNotUser              // pgfault, duppage: page table not user-accessible
    | PdeReadOnly             // pgfault: page table read-only
    | PteNotPresent           // pgfault: page doesn't exist
    | PteNotUser              // pgfault, duppage: page not user-accessible
    | PteNotCow               // pgfault: page not marked copy-on-write
    | MapFailed(code: int)    // duppage: sys_page_map returned an error
    | SforkNotImplemented     // sfork

  /** A call either returns a value or panics (which ends the environment). */
  datatype Outcome = Return(value: int) | Panicked(why: Panic)

  /** An outcome and the kernel state it leaves behind. */
  datatype Step = Step(out: Outcome, state: State)

  /**
   * `pn*PGSIZE` computed in 32-bit unsigned arithmetic.  Both branches equal
   * `(pn * PGSIZE) % ADDR_LIMIT`; the first only spares the solver the
   * remainder when nothing wraps.
   */
  function PageAddr(pn: nat): (va: nat)
    ensures va < ADDR_LIMIT && va % PGSIZE == 0
    ensures pn * PGSIZE < ADDR_LIMIT ==> va == pn * PGSIZE
  {
    if pn * PGSIZE < ADDR_LIMIT then pn * PGSIZE else (pn * PGSIZE) % ADDR_LIMIT
  }

  /** What duppage finds when it inspects one page of the caller. */
  datatype PageClass =
    | Absent                            // PDE or PTE not present: nothing to duplicate
    | BadPde                            // present PDE without PTE_U
    | BadPte                            // present PTE without PTE_U
    | Mapped(frame: Frame, perm: Bits)  // mapped user page: its frame and `*pte & PTE_SYSCALL`

  /** The inspection of lib/fork.c:78-89, through the read-only uvpd/uvpt view. */
  function Classify(L: Layout, s: Space, va: nat): (c: PageClass)
    requires L.Valid()
    ensures c.Mapped? ==>
      && RoundDown(va) in s.ptes && c.frame == s.ptes[RoundDown(va)].frame
      && L.P in PdeBits(s, va) && L.U in PdeBits(s, va)
      && {L.P, L.U} <= c.perm <= L.syscall
      && c.perm == Masked(L, PteBits(s, va))
  {
    var pde := PdeBits(s, va);
    if L.P !in pde then Absent
    else if L.U !in pde then BadPde
    else
      var pte := PteBits(s, va);
      if L.P !in pte then Absent
      else if L.U !in pte then BadPte
      else Mapped(s.ptes[RoundDown(va)].frame, Masked(L, pte))
  }

  /** What duppage(envid, pn) returns and leaves behind, called by the environment `cur`. */
  function DupPageSpec(L: Layout, cur: EnvId, s: State, envid: EnvId, pn: nat): (r: Step)
    requires L.Valid() && StateOk(cur, s)
    ensures StateOk(cur, r.state)
    ensures r.state.frames == s.frames && r.state.nextFrame == s.nextFrame && r.state.envs.Keys == s.envs.Keys
  {
    var addr := PageAddr(pn);
    match Classify(L, s.envs[cur].space, addr)
    case Absent => Step(Return(0), s)
    case BadPde => Step(Panicked(PdeNotUser), s)
    case BadPte => Step(Panicked(PteNotUser), s)
    case Mapped(_, perm) =>
      if L.Share in perm then
        var m := PageMap(L, cur, s, 0, addr, envid, addr, perm);
        if m.code < 0 then Step(Panicked(MapFailed(m.code)), m.state) else Step(Return(0), m.state)
      else
        var perm' := DupPerm(L, perm);
        var m := PageMap(L, cur, s, 0, addr, envid, addr, perm');
        if m.code < 0 then Step(Panicked(MapFailed(m.code)), m.state)
        else if COW in perm' then
          var m2 := PageMap(L, cur, m.state, 0, addr, 0, addr, perm');
          if m2.code < 0 then Step(Panicked(MapFailed(m2.code)), m2.state) else Step(Return(0), m2.state)
        else Step(Return(0), m.state)
  }

  /**
   * fork's loop from page index i on: duppage(cid, i) for every i with
   * i*PGSIZE < UTOP except the exception-stack page, stopping at the first
   * panic.  Completion is `Return(0)`.
   */
  function DupLoop(L: Layout, cur: EnvId, s: State, cid: EnvId, i: nat): (r: Step)
    requires L.Valid() && StateOk(cur, s)
    ensures StateOk(cur, r.state)
    ensures r.out == Return(0) || r.out.Panicked?
    ensures r.state.frames == s.frames && r.state.nextFrame == s.nextFrame && r.state.envs.Keys == s.envs.Keys
    decreases L.utop - i * PGSIZE
  {
    if i * PGSIZE >= L.utop then Step(Return(0), s)
    else if i * PGSIZE == L.XStackPage() then DupLoop(L, cur, s, cid, i + 1)
    else
      var st := DupPageSpec(L, cur, s, cid, i);
      if st.out.Panicked? then st else DupLoop(L, cur, st.state, cid, i + 1)
  }

  /** One iteration of fork's loop: skip the exception stack, or duppage and stop on a panic. */
  lemma DupLoopStep(L: Layout, cur: EnvId, s: State, cid: EnvId, i: nat)
    requires L.Valid() && StateOk(cur, s)
    ensures i * PGSIZE >= L.utop ==> DupLoop(L, cur, s, cid, i) == Step(Return(0), s)
    ensures i * PGSIZE < L.utop && i * PGSIZE == L.XStackPage() ==> DupLoop(L, cur, s, cid, i) == DupLoop(L, cur, s, cid, i + 1)
    ensures i * PGSIZE < L.utop && i * PGSIZE != L.XStackPage() ==>
      var st := DupPageSpec(L, cur, s, cid, i);
      DupLoop(L, cur, s, cid, i) == if st.out.Panicked? then st else DupLoop(L, cur, st.state, cid, i + 1)
  {
  }

  /** fork in the parent: cid is what sys_exofork returned, anything but 0. */
  function ForkParentSpec(L: Layout, cur: EnvId, s: State, cid: EnvId): (r: Step)
    requires L.Valid() && StateOk(cur, s) && cid != 0 && (cid > 0 ==> cid !in s.envs)
    ensures StateOk(cur, r.state)
    ensures r.out == Return(cid) || r.out.Panicked?
  {
    var s1 := Exofork(cur, s, cid).state;
    var loop := DupLoop(L, cur, s1, cid, 0);
    if loop.out.Panicked? then loop
    else
      var s2 := PageAlloc(L, cur, loop.state, cid, L.XStackPage(), {L.U, L.P, L.W}).state;
      var s3 := SetUpcall(cur, s2, cid, L.upcallEntry).state;
      var s4 := SetStatus(cur, s3, cid, Runnable).state;
      Step(Return(cid), s4)
  }

  /** pgfault's validation (lib/fork.c:30-45): the panic it raises, if any. */
  function FaultCheck(L: Layout, s: Space, va: nat, err: Bits): (r: Option<Panic>)
    requires L.Valid()
    // it passes exactly when the fault is a write to a present, user, copy-on-write page under a present, user, writable table
    ensures r == None <==>
      && L.fecWr in err
      && {L.P, L.U, L.W} <= PdeBits(s, va)
      && {L.P, L.U, COW} <= PteBits(s, va)
    // a failing PDE check is reported before any PTE check
    ensures r.Some? && !({L.P, L.U, L.W} <= PdeBits(s, va)) && L.fecWr in err ==>
      r.value in {PdeNotPresent, PdeNotUser, PdeReadOnly}
  {
    var pde := PdeBits(s, va);
    var pte := PteBits(s, va);
    if L.fecWr !in err then Some(NotWriteFault)
    else if L.P !in pde then Some(PdeNotPresent)
    else if L.U !in pde then Some(PdeNotUser)
    else if L.W !in pde then Some(PdeReadOnly)
    else if L.P !in pte then Some(PteNotPresent)
    else if L.U !in pte then Some(PteNotUser)
    else if COW !in pte then Some(PteNotCow)
    else None
  }

  /**
   * Once the checks pass, pgfault's sys_page_alloc at PFTEMP succeeds, and
   * afterwards both PFTEMP and the faulting page are mapped, so memmove can
   * copy between them.
   */
  lemma AllocThenCopy(L: Layout, cur: EnvId, s: State, va: nat, err: Bits)
    requires L.Valid() && StateOk(cur, s) && FaultCheck(L, s.envs[cur].space, va, err) == None
    ensures var a := PageAlloc(L, cur, s, 0, L.pfTemp, L.PUW());
      a.code == 0 && CanCopy(L, cur, a.state, L.pfTemp, RoundDown(va))
  {
    var sp := s.envs[cur].space;
    var pg := RoundDown(va);
    assert UserVa(L, L.pfTemp);
    var sp' := PageAlloc(L, cur, s, 0, L.pfTemp, L.PUW()).state.envs[cur].space;
    assert RoundDown(pg) == pg;
    assert PdeBits(sp, pg) == PdeBits(sp, va);
    if pg != L.pfTemp {
      assert Lookup(sp', pg) == Lookup(sp, pg);
      if Pdx(pg) != Pdx(L.pfTemp) {
        assert PdeBits(sp', pg) == PdeBits(sp, pg);
      }
    }
  }

  /** What pgfault does for a fault at va with error code err in the environment `cur`. */
  function PgFaultSpec(L: Layout, cur: EnvId, s: State, va: nat, err: Bits): (r: Step)
    requires L.Valid() && StateOk(cur, s)
    ensures StateOk(cur, r.state)
  {
    match FaultCheck(L, s.envs[cur].space, va, err)
    case Some(why) => Step(Panicked(why), s)
    case None =>
      var pg := RoundDown(va);
      var a := PageAlloc(L, cur, s, 0, L.pfTemp, L.PUW());
      AllocThenCopy(L, cur, s, va, err);
      var c := MemMove(L, cur, a.state, L.pfTemp, pg);
      var m := PageMap(L, cur, c, 0, L.pfTemp, 0, pg, L.PUW());
      Step(Return(0), m.state)
  }

  /** duppage (lib/fork.c:72-108). */
  method DupPage(k: Machine, envid: EnvId, pn: nat) returns (out: Outcome)
    requires k.Valid()
    modifies k
    ensures k.Valid()
    ensures out == DupPageSpec(k.L, k.cur, old(k.Snapshot()), envid, pn).out
    ensures k.Snapshot() == DupPageSpec(k.L, k.cur, old(k.Snapshot()), envid, pn).state
    ensures k.handlerInstalled == old(k.handlerInstalled) && k.thisenv == old(k.thisenv)
  {
    var addr := PageAddr(pn);
    var pde := PdeBits(k.envs[k.cur].space, addr);
    if k.L.P !in pde {
      return Return(0);
    }
    if k.L.U !in pde {
      return Panicked(PdeNotUser);
    }
    var pte := PteBits(k.envs[k.cur].space, addr);
    if k.L.P !in pte {
      return Return(0);
    }
    if k.L.U !in pte {
      return Panicked(PteNotUser);
    }
    var perm := Masked(k.L, pte);
    if k.L.Share in perm {
      var ret := k.SysPageMap(0, addr, envid, addr, perm);
      if ret < 0 {
        return Panicked(MapFailed(ret));
      }
      return Return(0);
    }
    if k.L.W in perm {
      perm := Flip(perm, k.L.W);
      perm := perm + {COW};
    }
    var ret := k.SysPageMap(0, addr, envid, addr, perm);
    if ret < 0 {
      return Panicked(MapFailed(ret));
    }
    if COW in perm {
      ret := k.SysPageMap(0, addr, 0, addr, perm);
      if ret < 0 {
        return Panicked(MapFailed(ret));
      }
    }
    return Return(0);
  }

  /** pgfault (lib/fork.c:16-59); its three kernel calls' results are ignored, as in the C code. */
  method PgFault(k: Machine, va: nat, err: Bits) returns (out: Outcome)
    requires k.Valid()
    modifies k
    ensures k.Valid()
    ensures out == PgFaultSpec(k.L, k.cur, old(k.Snapshot()), va, err).out
    ensures k.Snapshot() == PgFaultSpec(k.L, k.cur, old(k.Snapshot()), va, err).state
    ensures k.handlerInstalled == old(k.handlerInstalled) && k.thisenv == old(k.thisenv)
  {
    if k.L.fecWr !in err {
      return Panicked(NotWriteFault);
    }
    var pde := PdeBits(k.envs[k.cur].space, va);
    if k.L.P !in pde {
      return Panicked(PdeNotPresent);
    }
    if k.L.U !in pde {
      return Panicked(PdeNotUser);
    }
    if k.L.W !in pde {
      return Panicked(PdeReadOnly);
    }
    var pte := PteBits(k.envs[k.cur].space, va);
    if k.L.P !in pte {
      return Panicked(PteNotPresent);
    }
    if k.L.U !in pte {
      return Panicked(PteNotUser);
    }
    if COW !in pte {
      return Panicked(PteNotCow);
    }
    var pgb := RoundDown(va);
    var _ := k.SysPageAlloc(0, k.L.pfTemp, k.L.PUW());
    k.PageMove(k.L.pfTemp, pgb);
    var _ := k.SysPageMap(0, k.L.pfTemp, 0, pgb, k.L.PUW());
    return Return(0);
  }

  /**
   * fork (lib/fork.c:126-146).  `exoResult` is what sys_exofork returns on
   * this side: 0 in the child, the child's id or a negative error in the
   * parent.  Only 0 selects the child branch.
   */
  method Fork(k: Machine, exoResult: EnvId) returns (out: Outcome)
    requires k.Valid() && (exoResult > 0 ==> exoResult !in k.envs)
    modifies k
    ensures k.Valid() && k.handlerInstalled
    ensures exoResult == 0 ==> out == Return(0) && k.Snapshot() == old(k.Snapshot()) && k.thisenv == k.cur
    ensures exoResult != 0 ==>
      && out == ForkParentSpec(k.L, k.cur, old(k.Snapshot()), exoResult).out
      && k.Snapshot() == ForkParentSpec(k.L, k.cur, old(k.Snapshot()), exoResult).state
      && k.thisenv == old(k.thisenv)
  {
    k.SetPgfaultHandler();
    var cid := k.SysExofork(exoResult);
    if cid != 0 {
      ghost var s1 := k.Snapshot();
      var i: nat := 0;
      while i * PGSIZE < k.L.utop
        invariant k.Valid() && k.handlerInstalled && k.thisenv == old(k.thisenv)
        invariant DupLoop(k.L, k.cur, k.Snapshot(), cid, i) == DupLoop(k.L, k.cur, s1, cid, 0)
        decreases k.L.utop - i * PGSIZE
      {
        DupLoopStep(k.L, k.cur, k.Snapshot(), cid, i);
        if i * PGSIZE != k.L.XStackPage() {
          var r := DupPage(k, cid, i);
          if r.Panicked? {
            return r;
          }
        }
        i := i + 1;
      }
      DupLoopStep(k.L, k.cur, k.Snapshot(), cid, i);
      var _ := k.SysPageAlloc(cid, k.L.XStackPage(), {k.L.U, k.L.P, k.L.W});
      var _ := k.SysEnvSetPgfaultUpcall(cid, k.L.upcallEntry);
      var _ := k.SysEnvSetStatus(cid, Runnable);
    } else {
      k.FixThisEnv();
    }
    return Return(cid);
  }

  /** sfork (lib/fork.c:149-154): not implemented, always panics. */
  method Sfork() returns (out: Outcome)
    ensures out == Panicked(SforkNotImplemented)
  {
    return Panicked(SforkNotImplemented);
  }
}
