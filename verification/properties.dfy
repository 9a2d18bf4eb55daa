/**
 * What the specifications of lib/fork.c guarantee: the per-page effect of
 * duppage, the address spaces fork leaves in parent and child, and the
 * checks and repair done by pgfault.
 */
module ForkProperties {
  import opened Common
  import opened Layouts
  import opened PageTables
  import opened Kernel
  import opened Perms
  import opened Fork

  /** The entry duppage leaves in the child at va, given parent p and child c before the call. */
  function ChildEntry(L: Layout, p: Space, c: Space, va: nat): Option<Pte>
    requires L.Valid()
  {
    match Classify(L, p, va)
    case Mapped(f, perm) => Some(Pte(f, DupPerm(L, perm)))
    case _ => Lookup(c, va)
  }

  /** The entry duppage leaves in the parent at va. */
  function ParentEntry(L: Layout, p: Space, va: nat): Option<Pte>
    requires L.Valid()
  {
    match Classify(L, p, va)
    case Mapped(f, perm) => if RemapsParent(L, perm) then Some(Pte(f, DupPerm(L, perm))) else Lookup(p, va)
    case _ => Lookup(p, va)
  }

  /** A page fork's loop hands to duppage when it starts at index i. */
  predicate LoopPage(L: Layout, i: nat, w: nat)
    requires L.Valid()
  {
    w % PGSIZE == 0 && i * PGSIZE <= w < L.utop && w != L.XStackPage()
  }

  /** Classification of a page depends only on the directory and on that page's entry. */
  lemma ClassifyFrame(L: Layout, p: Space, q: Space, w: nat)
    requires L.Valid() && w % PGSIZE == 0 && p.pdes == q.pdes && Lookup(p, w) == Lookup(q, w)
    ensures Classify(L, p, w) == Classify(L, q, w)
  {
  }

  /**
   * The four ways duppage treats a mapped page (lib/fork.c:89-106): a
   * PTE_SHARE page goes to the child with the same frame and permission and
   * the parent is left alone; a private writable page goes to both with
   * PTE_W cleared and PTE_COW set; a private read-only page goes to the child
   * unchanged, and the parent is remapped, with the same permission, only
   * when it is already copy-on-write.
   */
  lemma DupPageCases(L: Layout, p: Space, c: Space, va: nat)
    requires L.Valid() && Classify(L, p, va).Mapped?
    ensures var f, perm := Classify(L, p, va).frame, Classify(L, p, va).perm;
      && (L.Share in perm ==>
            ChildEntry(L, p, c, va) == Some(Pte(f, perm)) && ParentEntry(L, p, va) == Lookup(p, va))
      && (L.Share !in perm && L.W in perm ==>
            exists q :: && L.W !in q && COW in q && q - {L.W, COW} == perm - {L.W, COW}
                        && ChildEntry(L, p, c, va) == Some(Pte(f, q)) && ParentEntry(L, p, va) == Some(Pte(f, q)))
      && (L.Share !in perm && L.W !in perm ==>
            && ChildEntry(L, p, c, va) == Some(Pte(f, perm))
            && ParentEntry(L, p, va) == if COW in perm then Some(Pte(f, perm)) else Lookup(p, va))
  {
    var perm := Classify(L, p, va).perm;
    if L.Share !in perm && L.W in perm {
      var q := DupPerm(L, perm);
      assert L.W !in q && COW in q && q - {L.W, COW} == perm - {L.W, COW};
    }
  }

  /** duppage skips a page whose PDE or PTE is absent and panics on one that is present without PTE_U (lib/fork.c:78-88). */
  lemma DupPageInspection(L: Layout, cur: EnvId, s: State, envid: EnvId, pn: nat)
    requires L.Valid() && StateOk(cur, s)
    ensures var sp, addr := s.envs[cur].space, PageAddr(pn);
      var pde, pte := PdeBits(sp, addr), PteBits(sp, addr);
      var r := DupPageSpec(L, cur, s, envid, pn);
      && (L.P !in pde || (L.U in pde && L.P !in pte) ==> r == Step(Return(0), s))
      && (L.P in pde && L.U !in pde ==> r == Step(Panicked(PdeNotUser), s))
      && (L.P in pde && L.U in pde && L.P in pte && L.U !in pte ==> r == Step(Panicked(PteNotUser), s))
  {
  }

  /**
   * The effect of one duppage call into a live child: the parent keeps its
   * directory, the page at pn*PGSIZE becomes ParentEntry in the parent and
   * ChildEntry in the child, and nothing else changes.
   */
  ghost predicate DupPageEffected(L: Layout, cur: EnvId, s: State, cid: EnvId, pn: nat)
    requires L.Valid() && StateOk(cur, s) && cid in s.envs && cid != cur
  {
    var r, addr := DupPageSpec(L, cur, s, cid, pn), pn * PGSIZE;
    var p, c := s.envs[cur].space, s.envs[cid].space;
    && r.out == (match Classify(L, p, addr)
                 case BadPde => Panicked(PdeNotUser)
                 case BadPte => Panicked(PteNotUser)
                 case _ => Return(0))
    && r.state.envs[cur].space.pdes == p.pdes
    && Lookup(r.state.envs[cur].space, addr) == ParentEntry(L, p, addr)
    && Lookup(r.state.envs[cid].space, addr) == ChildEntry(L, p, c, addr)
    && (forall w: nat :: w != addr ==> Lookup(r.state.envs[cur].space, w) == Lookup(p, w))
    && (forall w: nat :: w != addr ==> Lookup(r.state.envs[cid].space, w) == Lookup(c, w))
    && r.state.envs[cid].status == s.envs[cid].status && r.state.envs[cid].upcall == s.envs[cid].upcall
    && r.state.envs[cur].status == s.envs[cur].status && r.state.envs[cur].upcall == s.envs[cur].upcall
    && (forall id :: id in s.envs && id != cur && id != cid ==> r.state.envs[id] == s.envs[id])
  }

  /** duppage on a PTE_SHARE page: one mapping into the child. */
  lemma DupPageSharedEffect(L: Layout, cur: EnvId, s: State, cid: EnvId, pn: nat)
    requires L.Valid() && StateOk(cur, s) && cid in s.envs && cid != cur && pn * PGSIZE < L.utop
    requires Classify(L, s.envs[cur].space, pn * PGSIZE).Mapped? && L.Share in Classify(L, s.envs[cur].space, pn * PGSIZE).perm
    ensures DupPageEffected(L, cur, s, cid, pn)
  {
    var addr := pn * PGSIZE;
    var perm := Classify(L, s.envs[cur].space, addr).perm;
    assert perm + {L.P} == perm;
    PageMapInstalls(L, cur, s, 0, addr, cid, addr, perm);
  }

  /** duppage on a private page: a mapping into the child and, for a copy-on-write result, one into the parent. */
  lemma DupPagePrivateEffect(L: Layout, cur: EnvId, s: State, cid: EnvId, pn: nat)
    requires L.Valid() && StateOk(cur, s) && cid in s.envs && cid != cur && pn * PGSIZE < L.utop
    requires Classify(L, s.envs[cur].space, pn * PGSIZE).Mapped? && L.Share !in Classify(L, s.envs[cur].space, pn * PGSIZE).perm
    ensures DupPageEffected(L, cur, s, cid, pn)
  {
    var addr := pn * PGSIZE;
    var perm := Classify(L, s.envs[cur].space, addr).perm;
    var q := DupPerm(L, perm);
    DupPermIsUserPerm(L, perm);
    assert q + {L.P} == q;
    PageMapInstalls(L, cur, s, 0, addr, cid, addr, q);
    if COW in q {
      var m := PageMap(L, cur, s, 0, addr, cid, addr, q);
      PageMapInstalls(L, cur, m.state, 0, addr, 0, addr, q);
    }
  }

  /**
   * One duppage call into a live child: the parent keeps its directory, the
   * page at pn*PGSIZE becomes ParentEntry in the parent and ChildEntry in the
   * child, and nothing else changes; it panics only on a page present without PTE_U.
   */
  lemma DupPageEffect(L: Layout, cur: EnvId, s: State, cid: EnvId, pn: nat)
    requires L.Valid() && StateOk(cur, s) && cid in s.envs && cid != cur && pn * PGSIZE < L.utop
    ensures DupPageEffected(L, cur, s, cid, pn)
  {
    var c := Classify(L, s.envs[cur].space, pn * PGSIZE);
    if c.Mapped? {
      if L.Share in c.perm {
        DupPageSharedEffect(L, cur, s, cid, pn);
      } else {
        DupPagePrivateEffect(L, cur, s, cid, pn);
      }
    }
  }

  /** No page of fork's loop, from index i on, is present without PTE_U. */
  ghost predicate NoBadPage(L: Layout, p: Space, i: nat)
    requires L.Valid()
  {
    forall w: nat :: LoopPage(L, i, w) ==> !Classify(L, p, w).BadPde? && !Classify(L, p, w).BadPte?
  }

  /** Step from index i to i+1: the page at i*PGSIZE leaves the loop's range, nothing else does. */
  lemma LoopPageNext(L: Layout, i: nat, w: nat)
    requires L.Valid() && w != i * PGSIZE
    ensures LoopPage(L, i, w) <==> LoopPage(L, i + 1, w)
  {
  }

  /** Past a page that is not bad, the remaining pages are bad in the new parent iff they were in the old one. */
  lemma NoBadStep(L: Layout, i: nat, p: Space, p': Space)
    requires L.Valid() && i * PGSIZE < L.utop && i * PGSIZE != L.XStackPage()
    requires p'.pdes == p.pdes && !Classify(L, p, i * PGSIZE).BadPde? && !Classify(L, p, i * PGSIZE).BadPte?
    requires forall w: nat :: w != i * PGSIZE ==> Lookup(p', w) == Lookup(p, w)
    ensures NoBadPage(L, p', i + 1) <==> NoBadPage(L, p, i)
  {
    forall w: nat | w != i * PGSIZE
      ensures LoopPage(L, i, w) <==> LoopPage(L, i + 1, w)
      ensures w % PGSIZE == 0 ==> Classify(L, p', w) == Classify(L, p, w)
    {
      LoopPageNext(L, i, w);
      if w % PGSIZE == 0 {
        ClassifyFrame(L, p', p, w);
      }
    }
    assert !LoopPage(L, i + 1, i * PGSIZE);
  }

  /**
   * fork's loop into a live child completes exactly when no page it visits
   * is present without PTE_U; it panics at the first such page otherwise.
   */
  lemma {:induction false} DupLoopCompletes(L: Layout, cur: EnvId, s: State, cid: EnvId, i: nat)
    requires L.Valid() && StateOk(cur, s) && cid in s.envs && cid != cur
    ensures DupLoop(L, cur, s, cid, i).out == Return(0) <==> NoBadPage(L, s.envs[cur].space, i)
    decreases L.utop - i * PGSIZE
  {
    if i * PGSIZE >= L.utop {
      assert forall w: nat :: !LoopPage(L, i, w);
    } else if i * PGSIZE == L.XStackPage() {
      DupLoopCompletes(L, cur, s, cid, i + 1);
      SkipStep(L, i);
    } else {
      var st := DupPageSpec(L, cur, s, cid, i);
      DupPageEffect(L, cur, s, cid, i);
      if st.out.Panicked? {
        assert LoopPage(L, i, i * PGSIZE);
      } else {
        DupLoopCompletes(L, cur, st.state, cid, i + 1);
        assert DupLoop(L, cur, s, cid, i) == DupLoop(L, cur, st.state, cid, i + 1);
        NoBadStep(L, i, s.envs[cur].space, st.state.envs[cur].space);
      }
    }
  }

  /** One loop step on the parent: folding the page at i*PGSIZE into the rest of the loop. */
  lemma ParentStep(L: Layout, i: nat, p: Space, p': Space, t: Space)
    requires L.Valid() && i * PGSIZE < L.utop && i * PGSIZE != L.XStackPage()
    requires p'.pdes == p.pdes && Lookup(p', i * PGSIZE) == ParentEntry(L, p, i * PGSIZE)
    requires forall w: nat :: w != i * PGSIZE ==> Lookup(p', w) == Lookup(p, w)
    requires forall w: nat :: Lookup(t, w) == if LoopPage(L, i + 1, w) then ParentEntry(L, p', w) else Lookup(p', w)
    ensures forall w: nat :: Lookup(t, w) == if LoopPage(L, i, w) then ParentEntry(L, p, w) else Lookup(p, w)
  {
    forall w: nat
      ensures Lookup(t, w) == if LoopPage(L, i, w) then ParentEntry(L, p, w) else Lookup(p, w)
    {
      if w == i * PGSIZE {
        assert LoopPage(L, i, w) && !LoopPage(L, i + 1, w);
      } else {
        LoopPageNext(L, i, w);
        if w % PGSIZE == 0 {
          ClassifyFrame(L, p', p, w);
        }
      }
    }
  }

  /** One loop step on the child. */
  lemma ChildStep(L: Layout, i: nat, p: Space, p': Space, c: Space, c': Space, t: Space)
    requires L.Valid() && i * PGSIZE < L.utop && i * PGSIZE != L.XStackPage()
    requires p'.pdes == p.pdes && Lookup(c', i * PGSIZE) == ChildEntry(L, p, c, i * PGSIZE)
    requires forall w: nat :: w != i * PGSIZE ==> Lookup(p', w) == Lookup(p, w)
    requires forall w: nat :: w != i * PGSIZE ==> Lookup(c', w) == Lookup(c, w)
    requires forall w: nat :: Lookup(t, w) == if LoopPage(L, i + 1, w) then ChildEntry(L, p', c', w) else Lookup(c', w)
    ensures forall w: nat :: Lookup(t, w) == if LoopPage(L, i, w) then ChildEntry(L, p, c, w) else Lookup(c, w)
  {
    forall w: nat
      ensures Lookup(t, w) == if LoopPage(L, i, w) then ChildEntry(L, p, c, w) else Lookup(c, w)
    {
      if w == i * PGSIZE {
        assert LoopPage(L, i, w) && !LoopPage(L, i + 1, w);
      } else {
        LoopPageNext(L, i, w);
        if w % PGSIZE == 0 {
          ClassifyFrame(L, p', p, w);
        }
      }
    }
  }

  /** Skipping the exception-stack page changes which pages remain by nothing but that page. */
  lemma SkipStep(L: Layout, i: nat)
    requires L.Valid() && i * PGSIZE == L.XStackPage()
    ensures forall w: nat :: LoopPage(L, i, w) <==> LoopPage(L, i + 1, w)
  {
    forall w: nat ensures LoopPage(L, i, w) <==> LoopPage(L, i + 1, w) {
      if w != i * PGSIZE { LoopPageNext(L, i, w); }
    }
  }

  /**
   * The address spaces fork's loop leaves behind when it completes: every
   * loop page holds ParentEntry in the parent and ChildEntry in the child,
   * every other page is untouched, the parent's directory is unchanged, and
   * no other environment or field changes.
   */
  lemma {:induction false} DupLoopEffect(L: Layout, cur: EnvId, s: State, cid: EnvId, i: nat)
    requires L.Valid() && StateOk(cur, s) && cid in s.envs && cid != cur
    requires DupLoop(L, cur, s, cid, i).out == Return(0)
    ensures var t, p, c := DupLoop(L, cur, s, cid, i).state, s.envs[cur].space, s.envs[cid].space;
      && t.envs[cur].space.pdes == p.pdes
      && (forall w: nat :: Lookup(t.envs[cur].space, w) == if LoopPage(L, i, w) then ParentEntry(L, p, w) else Lookup(p, w))
      && (forall w: nat :: Lookup(t.envs[cid].space, w) == if LoopPage(L, i, w) then ChildEntry(L, p, c, w) else Lookup(c, w))
      && t.envs[cid].status == s.envs[cid].status && t.envs[cid].upcall == s.envs[cid].upcall
      && t.envs[cur].status == s.envs[cur].status && t.envs[cur].upcall == s.envs[cur].upcall
      && (forall id :: id in s.envs && id != cur && id != cid ==> t.envs[id] == s.envs[id])
    decreases L.utop - i * PGSIZE
  {
    if i * PGSIZE >= L.utop {
      assert forall w: nat :: !LoopPage(L, i, w);
    } else if i * PGSIZE == L.XStackPage() {
      DupLoopEffect(L, cur, s, cid, i + 1);
      SkipStep(L, i);
    } else {
      var st := DupPageSpec(L, cur, s, cid, i);
      DupPageEffect(L, cur, s, cid, i);
      DupLoopEffect(L, cur, st.state, cid, i + 1);
      var t := DupLoop(L, cur, st.state, cid, i + 1).state;
      assert DupLoop(L, cur, s, cid, i).state == t;
      ParentStep(L, i, s.envs[cur].space, st.state.envs[cur].space, t.envs[cur].space);
      ChildStep(L, i, s.envs[cur].space, st.state.envs[cur].space, s.envs[cid].space, st.state.envs[cid].space, t.envs[cid].space);
    }
  }

  /** Every page fork's loop visits from index i on is absent. */
  ghost predicate AllAbsent(L: Layout, p: Space, i: nat)
    requires L.Valid()
  {
    forall w: nat :: LoopPage(L, i, w) ==> Classify(L, p, w).Absent?
  }

  /** How AllAbsent at index i relates to the page at i*PGSIZE and to AllAbsent at i+1. */
  lemma AbsentStep(L: Layout, p: Space, i: nat)
    requires L.Valid()
    ensures i * PGSIZE >= L.utop ==> AllAbsent(L, p, i)
    ensures i * PGSIZE < L.utop && i * PGSIZE == L.XStackPage() ==> (AllAbsent(L, p, i) <==> AllAbsent(L, p, i + 1))
    ensures i * PGSIZE < L.utop && i * PGSIZE != L.XStackPage() ==>
      (AllAbsent(L, p, i) <==> Classify(L, p, i * PGSIZE).Absent? && AllAbsent(L, p, i + 1))
  {
    forall w: nat | w != i * PGSIZE ensures LoopPage(L, i, w) <==> LoopPage(L, i + 1, w) {
      LoopPageNext(L, i, w);
    }
    assert i * PGSIZE < L.utop && i * PGSIZE != L.XStackPage() ==> LoopPage(L, i, i * PGSIZE);
  }

  /** duppage into an environment that does not exist: nothing changes, and it returns 0 iff the page is absent. */
  lemma DupPageNoChild(L: Layout, cur: EnvId, s: State, cid: EnvId, pn: nat)
    requires L.Valid() && StateOk(cur, s) && cid < 0
    ensures DupPageSpec(L, cur, s, cid, pn).state == s
    ensures DupPageSpec(L, cur, s, cid, pn).out == Return(0) <==> Classify(L, s.envs[cur].space, PageAddr(pn)).Absent?
  {
    assert cid !in s.envs;
  }

  /**
   * fork's loop when sys_exofork failed (cid < 0 names no environment):
   * nothing changes, and the loop completes exactly when every page it
   * visits is absent; the first present page makes duppage panic.
   */
  lemma {:induction false} DupLoopNoChild(L: Layout, cur: EnvId, s: State, cid: EnvId, i: nat)
    requires L.Valid() && StateOk(cur, s) && cid < 0
    ensures DupLoop(L, cur, s, cid, i).state == s
    ensures DupLoop(L, cur, s, cid, i).out == Return(0) <==> AllAbsent(L, s.envs[cur].space, i)
    decreases L.utop - i * PGSIZE
  {
    DupLoopStep(L, cur, s, cid, i);
    AbsentStep(L, s.envs[cur].space, i);
    if i * PGSIZE < L.utop {
      DupLoopNoChild(L, cur, s, cid, i + 1);
      if i * PGSIZE != L.XStackPage() {
        DupPageNoChild(L, cur, s, cid, i);
      }
    }
  }

  /**
   * fork in the parent with a new child (lib/fork.c:132-140) completes
   * exactly when no page below UTOP other than the exception stack is present
   * without PTE_U, and then returns the child's id.
   */
  lemma ForkParentOutcome(L: Layout, cur: EnvId, s: State, cid: EnvId)
    requires L.Valid() && StateOk(cur, s) && cid > 0 && cid !in s.envs
    ensures ForkParentSpec(L, cur, s, cid).out == Return(cid) <==> NoBadPage(L, s.envs[cur].space, 0)
    ensures ForkParentSpec(L, cur, s, cid).out != Return(cid) ==> ForkParentSpec(L, cur, s, cid).out.Panicked?
  {
    var s1 := Exofork(cur, s, cid).state;
    assert s1.envs[cur] == s.envs[cur];
    DupLoopCompletes(L, cur, s1, cid, 0);
  }

  /**
   * What a completed fork leaves behind in the parent (lib/fork.c:132-140),
   * in a run where the parent takes no page fault during the loop (a write
   * to its own stack page, marked PTE_COW by duppage, would replace that
   * page with a fresh copy and allocate another frame):
   * the child exists, is runnable and has the upcall; every page below UTOP
   * except the exception stack is mapped in parent and child as duppage
   * prescribes; the child's exception-stack page is a fresh zero-filled
   * frame that nothing mapped before, with PTE_U|PTE_P|PTE_W; the parent's
   * own exception stack, its directory, every page at or above UTOP and
   * every other environment are untouched.
   */
  lemma ForkParentResult(L: Layout, cur: EnvId, s: State, cid: EnvId)
    requires L.Valid() && StateOk(cur, s) && cid > 0 && cid !in s.envs
    requires NoBadPage(L, s.envs[cur].space, 0)
    ensures var t, p, n := ForkParentSpec(L, cur, s, cid).state, s.envs[cur].space, s.nextFrame;
      && ForkParentSpec(L, cur, s, cid).out == Return(cid)
      && t.envs.Keys == s.envs.Keys + {cid}
      && t.envs[cid].status == Runnable && t.envs[cid].upcall == Some(L.upcallEntry)
      && (forall w: nat :: LoopPage(L, 0, w) ==>
            && Lookup(t.envs[cid].space, w) == ChildEntry(L, p, EmptySpace, w)
            && Lookup(t.envs[cur].space, w) == ParentEntry(L, p, w))
      && (forall w: nat :: !LoopPage(L, 0, w) && w != L.XStackPage() ==>
            Lookup(t.envs[cid].space, w) == None && Lookup(t.envs[cur].space, w) == Lookup(p, w))
      && Unmapped(s, n)
      && Lookup(t.envs[cid].space, L.XStackPage()) == Some(Pte(n, {L.U, L.P, L.W}))
      && Lookup(t.envs[cur].space, L.XStackPage()) == Lookup(p, L.XStackPage())
      && t.frames == s.frames[n := ZeroPage()] && t.nextFrame == n + 1
      && t.envs[cur] == s.envs[cur].(space := t.envs[cur].space) && t.envs[cur].space.pdes == p.pdes
      && (forall id :: id in s.envs && id != cur ==> t.envs[id] == s.envs[id])
  {
    var p := s.envs[cur].space;
    var s1 := Exofork(cur, s, cid).state;
    assert s1.envs[cur] == s.envs[cur] && s1.envs[cid].space == EmptySpace;
    DupLoopCompletes(L, cur, s1, cid, 0);
    DupLoopEffect(L, cur, s1, cid, 0);
    NextFrameUnmapped(cur, s);
    var loop := DupLoop(L, cur, s1, cid, 0);
    var a := PageAlloc(L, cur, loop.state, cid, L.XStackPage(), {L.U, L.P, L.W});
    assert UserVa(L, L.XStackPage());
    assert a.code == 0;
    assert {L.U, L.P, L.W} + {L.P} == {L.U, L.P, L.W};
    assert !LoopPage(L, 0, L.XStackPage());
  }

  /**
   * fork with a failed sys_exofork (cid < 0) still takes the parent branch
   * (lib/fork.c:132): the state is unchanged, and it returns cid exactly
   * when no page the loop visits is present; otherwise duppage panics.
   */
  lemma ForkBadChildId(L: Layout, cur: EnvId, s: State, cid: EnvId)
    requires L.Valid() && StateOk(cur, s) && cid < 0
    ensures ForkParentSpec(L, cur, s, cid).state == s
    ensures ForkParentSpec(L, cur, s, cid).out == Return(cid) <==> AllAbsent(L, s.envs[cur].space, 0)
    ensures ForkParentSpec(L, cur, s, cid).out != Return(cid) ==> ForkParentSpec(L, cur, s, cid).out.Panicked?
  {
    DupLoopNoChild(L, cur, s, cid, 0);
  }

  /** duppage's per-page entries never alias a frame writably unless the page is PTE_SHARE. */
  lemma EntriesNoWritableAlias(L: Layout, p: Space, w: nat)
    requires L.Valid() && Classify(L, p, w).Mapped? && w % PGSIZE == 0
    ensures var c, q := ChildEntry(L, p, EmptySpace, w), ParentEntry(L, p, w);
      && c.Some? && q.Some? && q.value.frame == c.value.frame
      && (L.Share in c.value.bits || (L.W !in c.value.bits && L.W !in q.value.bits))
  {
    var perm := Classify(L, p, w).perm;
    if L.Share !in perm {
      PrivatePageNotWritable(L, perm);
    }
  }

  /**
   * In a run where the parent takes no page fault during the loop (see
   * ForkParentResult), after a completed fork no page is writable in both environments unless
   * it is PTE_SHARE: every page the child received maps the same frame as
   * the parent's, and either carries PTE_SHARE or is writable on neither side.
   */
  lemma ForkNoWritableAliasing(L: Layout, cur: EnvId, s: State, cid: EnvId, w: nat)
    requires L.Valid() && StateOk(cur, s) && cid > 0 && cid !in s.envs
    requires NoBadPage(L, s.envs[cur].space, 0)
    requires Lookup(ForkParentSpec(L, cur, s, cid).state.envs[cid].space, w).Some?
    requires w != L.XStackPage()
    ensures var t := ForkParentSpec(L, cur, s, cid).state;
      var c, q := Lookup(t.envs[cid].space, w).value, Lookup(t.envs[cur].space, w);
      && q.Some? && q.value.frame == c.frame
      && (L.Share in c.bits || (L.W !in c.bits && L.W !in q.value.bits))
  {
    var p := s.envs[cur].space;
    ForkParentResult(L, cur, s, cid);
    assert LoopPage(L, 0, w);
    assert Lookup(EmptySpace, w) == None;
    assert Classify(L, p, w).Mapped?;
    EntriesNoWritableAlias(L, p, w);
  }

  /**
   * The exception-stack page is never shared or copy-on-write between parent
   * and child: the child's is a frame no entry of the parent maps, without PTE_COW.
   */
  lemma ForkExceptionStackPrivate(L: Layout, cur: EnvId, s: State, cid: EnvId, w: nat)
    requires L.Valid() && StateOk(cur, s) && cid > 0 && cid !in s.envs
    requires NoBadPage(L, s.envs[cur].space, 0)
    requires Lookup(ForkParentSpec(L, cur, s, cid).state.envs[cur].space, w).Some?
    ensures var t := ForkParentSpec(L, cur, s, cid).state;
      var x := Lookup(t.envs[cid].space, L.XStackPage());
      && x.Some? && COW !in x.value.bits
      && Lookup(t.envs[cur].space, w).value.frame != x.value.frame
  {
    var p := s.envs[cur].space;
    ForkParentResult(L, cur, s, cid);
    var t := ForkParentSpec(L, cur, s, cid).state;
    if LoopPage(L, 0, w) {
      match Classify(L, p, w)
      case Mapped(f, perm) =>
        assert RoundDown(w) == w;
      case _ =>
    }
  }

  /**
   * pgfault panics exactly when the fault is not a write, the PDE is not
   * present, user and writable, or the PTE is not present, user and
   * copy-on-write (lib/fork.c:30-45); a panic changes nothing.  PTE_W on the
   * faulting page is not checked.
   */
  lemma PgFaultPanics(L: Layout, cur: EnvId, s: State, va: nat, err: Bits)
    requires L.Valid() && StateOk(cur, s)
    ensures var sp := s.envs[cur].space;
      var pde, pte, r := PdeBits(sp, va), PteBits(sp, va), PgFaultSpec(L, cur, s, va, err);
      && (r.out.Panicked? <==>
            L.fecWr !in err || L.P !in pde || L.U !in pde || L.W !in pde
            || L.P !in pte || L.U !in pte || COW !in pte)
      && (r.out.Panicked? ==> r.state == s)
      && (!r.out.Panicked? ==> r.out == Return(0))
  {
  }

  /**
   * After validation pgfault (lib/fork.c:52-55) maps a newly allocated
   * frame, which no environment mapped before, at PFTEMP and, when the
   * faulting page lies below UTOP, at the faulting page too, both with
   * exactly PTE_P|PTE_U|PTE_W (no PTE_COW).  The new frame holds the old
   * frame's bytes, unless the faulting page is PFTEMP itself, where the
   * copy reads the fresh zero page.  Nothing else changes.
   */
  lemma PgFaultRepairs(L: Layout, cur: EnvId, s: State, va: nat, err: Bits)
    requires L.Valid() && StateOk(cur, s) && FaultCheck(L, s.envs[cur].space, va, err) == None
    ensures var r, sp, pg, n := PgFaultSpec(L, cur, s, va, err), s.envs[cur].space, RoundDown(va), s.nextFrame;
      var sp' := r.state.envs[cur].space;
      && r.out == Return(0)
      && pg in sp.ptes && Unmapped(s, n)
      && COW !in L.PUW() && L.W in L.PUW()
      && Lookup(sp', L.pfTemp) == Some(Pte(n, L.PUW()))
      && (pg < L.utop ==> Lookup(sp', pg) == Some(Pte(n, L.PUW())))
      && (pg >= L.utop ==> Lookup(sp', pg) == Lookup(sp, pg))
      && r.state.frames == s.frames[n := if pg == L.pfTemp then ZeroPage() else s.frames[sp.ptes[pg].frame]]
      && r.state.nextFrame == n + 1
      && (forall w: nat :: w != pg && w != L.pfTemp ==> Lookup(sp', w) == Lookup(sp, w))
      && r.state.envs.Keys == s.envs.Keys
      && r.state.envs[cur] == s.envs[cur].(space := sp')
      && (forall id :: id in s.envs && id != cur ==> r.state.envs[id] == s.envs[id])
  {
    NextFrameUnmapped(cur, s);
    assert L.PUW() + {L.P} == L.PUW();
    assert UserVa(L, L.pfTemp);
  }
}
