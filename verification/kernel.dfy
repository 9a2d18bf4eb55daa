/**
 * The kernel interface the fork code calls: sys_exofork, sys_page_alloc,
 * sys_page_map, sys_env_set_status and sys_env_set_pgfault_upcall, plus the
 * user-level memmove and the pgfault-handler registration.
 *
 * The kernel itself is not part of this model.  Each call is given the
 * obvious meaning as a pure function from one `State` to a `Reply` (a status
 * code and the next state); the class `Machine` holds the state that the
 * calls update in place, and each of its methods is tied to its function.
 */
module Kernel {
  import opened Common
  import opened Layouts
  import opened PageTables

  /** envid_t; 0 names the calling environment. */
  type EnvId = int

  /** Error codes (negated, as the kernel returns them). */
  const E_BAD_ENV: int := -2
  const E_INVAL: int := -3

  datatype Status = Runnable | NotRunnable

  /** An environment: its address space, its fault upcall and its run status. */
  datatype Env = Env(space: Space, upcall: Option<nat>, status: Status)

  /** Everything the calls read or change: environments, frame contents, the frame allocator. */
  datatype State = State(envs: map<EnvId, Env>, frames: map<Frame, seq<bv8>>, nextFrame: Frame)

  /** What a call returns (0 or a negative error) and the state after it. */
  datatype Reply = Reply(code: int, state: State)

  /**
   * Well-formed kernel state: the caller exists, environment ids are
   * positive, every allocated frame is below the allocator's mark and holds
   * one page, and every mapped frame is allocated.
   */
  ghost predicate StateOk(cur: EnvId, s: State) {
    && cur > 0 && cur in s.envs
    && (forall id :: id in s.envs ==> id > 0)
    && (forall f :: f in s.frames ==> f < s.nextFrame && |s.frames[f]| == PGSIZE)
    && (forall id, va :: id in s.envs && va in s.envs[id].space.ptes ==>
          s.envs[id].space.ptes[va].frame in s.frames)
  }

  /** A frame no environment maps. */
  ghost predicate Unmapped(s: State, f: Frame) {
    forall id, va :: id in s.envs && va in s.envs[id].space.ptes ==> s.envs[id].space.ptes[va].frame != f
  }

  lemma NextFrameUnmapped(cur: EnvId, s: State)
    requires StateOk(cur, s)
    ensures Unmapped(s, s.nextFrame) && s.nextFrame !in s.frames
  {
  }

  /** envid2env: 0 stands for the caller. */
  function Resolve(cur: EnvId, id: EnvId): EnvId {
    if id == 0 then cur else id
  }

  /** A virtual address the kernel accepts in a mapping call. */
  predicate UserVa(L: Layout, va: nat) {
    va < L.utop && va % PGSIZE == 0
  }

  /** A permission the kernel accepts: PTE_U and PTE_P set, nothing outside PTE_SYSCALL. */
  predicate UserPerm(L: Layout, perm: Bits) {
    {L.U, L.P} <= perm && perm <= L.syscall
  }

  /** The state with environment id's address space replaced. */
  function WithSpace(s: State, id: EnvId, sp: Space): (t: State)
    requires id in s.envs
    ensures t.envs.Keys == s.envs.Keys && t.envs[id].space == sp
  {
    s.(envs := s.envs[id := s.envs[id].(space := sp)])
  }

  /** A freshly allocated frame's contents: one page of zero bytes. */
  function ZeroPage(): (z: seq<bv8>)
    ensures |z| == PGSIZE && forall i :: 0 <= i < |z| ==> z[i] == 0
  {
    seq(PGSIZE, _ => 0 as bv8)
  }

  /**
   * sys_page_map(srcId, srcVa, dstId, dstVa, perm): map the frame behind
   * srcVa in srcId at dstVa in dstId with perm.  Fails without changing
   * anything when an environment does not exist, an address is not a
   * page-aligned address below UTOP, srcVa is not mapped (its directory slot
   * or its entry lacks PTE_P), perm is not a
   * user permission, or perm asks for PTE_W on a read-only source page.
   */
  function PageMap(L: Layout, cur: EnvId, s: State, srcId: EnvId, srcVa: nat, dstId: EnvId, dstVa: nat, perm: Bits): (r: Reply)
    requires StateOk(cur, s)
    ensures StateOk(cur, r.state)
    ensures r.code == 0 || (r.code < 0 && r.state == s)
    ensures r.state.frames == s.frames && r.state.nextFrame == s.nextFrame && r.state.envs.Keys == s.envs.Keys
    ensures r.code == 0 ==>
      && Resolve(cur, srcId) in s.envs && Resolve(cur, dstId) in s.envs
      && UserVa(L, srcVa) && UserVa(L, dstVa) && UserPerm(L, perm)
      && var src := s.envs[Resolve(cur, srcId)].space;
      && L.P in PdeBits(src, srcVa) && srcVa in src.ptes
      && Lookup(r.state.envs[Resolve(cur, dstId)].space, dstVa) == Some(Pte(src.ptes[srcVa].frame, perm + {L.P}))
  {
    var src := Resolve(cur, srcId);
    var dst := Resolve(cur, dstId);
    if src !in s.envs || dst !in s.envs then Reply(E_BAD_ENV, s)
    else if !UserVa(L, srcVa) || !UserVa(L, dstVa) then Reply(E_INVAL, s)
    else if L.P !in PdeBits(s.envs[src].space, srcVa) || srcVa !in s.envs[src].space.ptes || L.P !in s.envs[src].space.ptes[srcVa].bits then Reply(E_INVAL, s)
    else if !UserPerm(L, perm) then Reply(E_INVAL, s)
    else if L.W in perm && L.W !in s.envs[src].space.ptes[srcVa].bits then Reply(E_INVAL, s)
    else
      var pte := Pte(s.envs[src].space.ptes[srcVa].frame, perm + {L.P});
      Reply(0, WithSpace(s, dst, Install(L, s.envs[dst].space, dstVa, pte)))
  }

  /** A sys_page_map that passes every check succeeds, replacing only the destination's address space. */
  lemma PageMapInstalls(L: Layout, cur: EnvId, s: State, srcId: EnvId, srcVa: nat, dstId: EnvId, dstVa: nat, perm: Bits)
    requires StateOk(cur, s)
    requires Resolve(cur, srcId) in s.envs && Resolve(cur, dstId) in s.envs && UserVa(L, srcVa) && UserVa(L, dstVa)
    requires L.P in PdeBits(s.envs[Resolve(cur, srcId)].space, srcVa)
    requires srcVa in s.envs[Resolve(cur, srcId)].space.ptes && L.P in s.envs[Resolve(cur, srcId)].space.ptes[srcVa].bits
    requires UserPerm(L, perm) && (L.W in perm ==> L.W in s.envs[Resolve(cur, srcId)].space.ptes[srcVa].bits)
    ensures var r, d := PageMap(L, cur, s, srcId, srcVa, dstId, dstVa, perm), Resolve(cur, dstId);
      var pte := Pte(s.envs[Resolve(cur, srcId)].space.ptes[srcVa].frame, perm + {L.P});
      && r.code == 0
      && r.state.envs == s.envs[d := s.envs[d].(space := Install(L, s.envs[d].space, dstVa, pte))]
  {
  }

  /**
   * sys_page_alloc(id, va, perm): map a new zero-filled frame at va in id
   * with perm.  Fails without changing anything when the environment does
   * not exist, va is not a page-aligned address below UTOP, or perm is not
   * a user permission.
   */
  function PageAlloc(L: Layout, cur: EnvId, s: State, id: EnvId, va: nat, perm: Bits): (r: Reply)
    requires StateOk(cur, s)
    ensures StateOk(cur, r.state)
    ensures r.code == 0 || (r.code < 0 && r.state == s)
    ensures r.state.envs.Keys == s.envs.Keys
    ensures r.code == 0 <==> Resolve(cur, id) in s.envs && UserVa(L, va) && UserPerm(L, perm)
    ensures r.code == 0 ==>
      var e := Resolve(cur, id);
      && r.state.nextFrame == s.nextFrame + 1
      && Lookup(r.state.envs[e].space, va) == Some(Pte(s.nextFrame, perm + {L.P}))
      && r.state.envs == s.envs[e := s.envs[e].(space := Install(L, s.envs[e].space, va, Pte(s.nextFrame, perm + {L.P})))]
      && r.state.frames == s.frames[s.nextFrame := ZeroPage()]
  {
    var e := Resolve(cur, id);
    if e !in s.envs then Reply(E_BAD_ENV, s)
    else if !UserVa(L, va) then Reply(E_INVAL, s)
    else if !UserPerm(L, perm) then Reply(E_INVAL, s)
    else
      var f := s.nextFrame;
      var t := WithSpace(s, e, Install(L, s.envs[e].space, va, Pte(f, perm + {L.P})));
      Reply(0, t.(frames := s.frames[f := ZeroPage()], nextFrame := f + 1))
  }

  /** sys_env_set_status(id, status). */
  function SetStatus(cur: EnvId, s: State, id: EnvId, status: Status): (r: Reply)
    requires StateOk(cur, s)
    ensures StateOk(cur, r.state)
    ensures r.code == 0 <==> Resolve(cur, id) in s.envs
    ensures r.code == 0 ==> r.state.envs == s.envs[Resolve(cur, id) := s.envs[Resolve(cur, id)].(status := status)]
    ensures r.code != 0 ==> r.code < 0 && r.state == s
    ensures r.state.frames == s.frames && r.state.nextFrame == s.nextFrame
  {
    var e := Resolve(cur, id);
    if e !in s.envs then Reply(E_BAD_ENV, s)
    else Reply(0, s.(envs := s.envs[e := s.envs[e].(status := status)]))
  }

  /** sys_env_set_pgfault_upcall(id, entry). */
  function SetUpcall(cur: EnvId, s: State, id: EnvId, entry: nat): (r: Reply)
    requires StateOk(cur, s)
    ensures StateOk(cur, r.state)
    ensures r.code == 0 <==> Resolve(cur, id) in s.envs
    ensures r.code == 0 ==> r.state.envs == s.envs[Resolve(cur, id) := s.envs[Resolve(cur, id)].(upcall := Some(entry))]
    ensures r.code != 0 ==> r.code < 0 && r.state == s
    ensures r.state.frames == s.frames && r.state.nextFrame == s.nextFrame
  {
    var e := Resolve(cur, id);
    if e !in s.envs then Reply(E_BAD_ENV, s)
    else Reply(0, s.(envs := s.envs[e := s.envs[e].(upcall := Some(entry))]))
  }

  /**
   * sys_exofork, seen from one side: `result` is the value this side
   * receives.  A positive result names a new, not-runnable environment with
   * an empty address space and no upcall; 0 (the child's side) and a
   * negative error change nothing here.
   */
  function Exofork(cur: EnvId, s: State, result: int): (r: Reply)
    requires StateOk(cur, s) && (result > 0 ==> result !in s.envs)
    ensures StateOk(cur, r.state) && r.code == result
    ensures result > 0 ==> r.state.envs == s.envs[result := Env(EmptySpace, None, NotRunnable)]
    ensures result <= 0 ==> r.state == s
    ensures r.state.frames == s.frames && r.state.nextFrame == s.nextFrame
  {
    if result > 0 then Reply(result, s.(envs := s.envs[result := Env(EmptySpace, None, NotRunnable)]))
    else Reply(result, s)
  }

  /** Both pages mapped (directory slot and entry with PTE_P) in the caller, so the caller can copy one into the other. */
  predicate CanCopy(L: Layout, cur: EnvId, s: State, dstVa: nat, srcVa: nat) {
    && cur in s.envs
    && L.P in PdeBits(s.envs[cur].space, dstVa) && L.P in PteBits(s.envs[cur].space, dstVa)
    && L.P in PdeBits(s.envs[cur].space, srcVa) && L.P in PteBits(s.envs[cur].space, srcVa)
    && dstVa in s.envs[cur].space.ptes && srcVa in s.envs[cur].space.ptes
    && s.envs[cur].space.ptes[srcVa].frame in s.frames
  }

  /** memmove(dstVa, srcVa, PGSIZE) in the caller: the frame behind dstVa receives the bytes behind srcVa. */
  function MemMove(L: Layout, cur: EnvId, s: State, dstVa: nat, srcVa: nat): (t: State)
    requires StateOk(cur, s) && CanCopy(L, cur, s, dstVa, srcVa)
    ensures StateOk(cur, t)
    ensures t.envs == s.envs && t.nextFrame == s.nextFrame
    ensures t.frames == s.frames[s.envs[cur].space.ptes[dstVa].frame := s.frames[s.envs[cur].space.ptes[srcVa].frame]]
  {
    var sp := s.envs[cur].space;
    s.(frames := s.frames[sp.ptes[dstVa].frame := s.frames[sp.ptes[srcVa].frame]])
  }

  /**
   * The machine as one environment sees it while it runs: the layout
   * constants, its own id, the kernel state, whether its page-fault
   * handler is registered, and (ghost) the environment its `thisenv`
   * global names.
   */
  class Machine {
    const L: Layout
    const cur: EnvId
    var envs: map<EnvId, Env>
    var frames: map<Frame, seq<bv8>>
    var nextFrame: Frame
    var handlerInstalled: bool
    ghost var thisenv: EnvId

    function Snapshot(): State
      reads this
    {
      State(envs, frames, nextFrame)
    }

    ghost predicate Valid()
      reads this
    {
      L.Valid() && StateOk(cur, Snapshot())
    }

    constructor (L: Layout, cur: EnvId, s: State)
      requires L.Valid() && StateOk(cur, s)
      ensures Valid() && this.L == L && this.cur == cur && Snapshot() == s
      ensures !handlerInstalled && thisenv == cur
    {
      this.L := L;
      this.cur := cur;
      envs, frames, nextFrame := s.envs, s.frames, s.nextFrame;
      handlerInstalled := false;
      thisenv := cur;
    }

    /** Make `s` the current kernel state. */
    method Commit(s: State)
      requires L.Valid() && StateOk(cur, s)
      modifies this
      ensures Valid() && Snapshot() == s
      ensures handlerInstalled == old(handlerInstalled) && thisenv == old(thisenv)
    {
      envs, frames, nextFrame := s.envs, s.frames, s.nextFrame;
    }

    method SysPageMap(srcId: EnvId, srcVa: nat, dstId: EnvId, dstVa: nat, perm: Bits) returns (r: int)
      requires Valid()
      modifies this
      ensures Valid()
      ensures r == PageMap(L, cur, old(Snapshot()), srcId, srcVa, dstId, dstVa, perm).code
      ensures Snapshot() == PageMap(L, cur, old(Snapshot()), srcId, srcVa, dstId, dstVa, perm).state
      ensures handlerInstalled == old(handlerInstalled) && thisenv == old(thisenv)
    {
      var reply := PageMap(L, cur, Snapshot(), srcId, srcVa, dstId, dstVa, perm);
      Commit(reply.state);
      r := reply.code;
    }

    method SysPageAlloc(id: EnvId, va: nat, perm: Bits) returns (r: int)
      requires Valid()
      modifies this
      ensures Valid()
      ensures r == PageAlloc(L, cur, old(Snapshot()), id, va, perm).code
      ensures Snapshot() == PageAlloc(L, cur, old(Snapshot()), id, va, perm).state
      ensures handlerInstalled == old(handlerInstalled) && thisenv == old(thisenv)
    {
      var reply := PageAlloc(L, cur, Snapshot(), id, va, perm);
      Commit(reply.state);
      r := reply.code;
    }

    method SysEnvSetStatus(id: EnvId, status: Status) returns (r: int)
      requires Valid()
      modifies this
      ensures Valid()
      ensures r == SetStatus(cur, old(Snapshot()), id, status).code
      ensures Snapshot() == SetStatus(cur, old(Snapshot()), id, status).state
      ensures handlerInstalled == old(handlerInstalled) && thisenv == old(thisenv)
    {
      var reply := SetStatus(cur, Snapshot(), id, status);
      Commit(reply.state);
      r := reply.code;
    }

    method SysEnvSetPgfaultUpcall(id: EnvId, entry: nat) returns (r: int)
      requires Valid()
      modifies this
      ensures Valid()
      ensures r == SetUpcall(cur, old(Snapshot()), id, entry).code
      ensures Snapshot() == SetUpcall(cur, old(Snapshot()), id, entry).state
      ensures handlerInstalled == old(handlerInstalled) && thisenv == old(thisenv)
    {
      var reply := SetUpcall(cur, Snapshot(), id, entry);
      Commit(reply.state);
      r := reply.code;
    }

    method SysExofork(result: int) returns (r: int)
      requires Valid() && (result > 0 ==> result !in envs)
      modifies this
      ensures Valid() && r == result
      ensures Snapshot() == Exofork(cur, old(Snapshot()), result).state
      ensures handlerInstalled == old(handlerInstalled) && thisenv == old(thisenv)
    {
      var reply := Exofork(cur, Snapshot(), result);
      Commit(reply.state);
      r := reply.code;
    }

    /** memmove(dstVa, srcVa, PGSIZE) performed by the calling environment. */
    method PageMove(dstVa: nat, srcVa: nat)
      requires Valid() && CanCopy(L, cur, Snapshot(), dstVa, srcVa)
      modifies this
      ensures Valid()
      ensures Snapshot() == MemMove(L, cur, old(Snapshot()), dstVa, srcVa)
      ensures handlerInstalled == old(handlerInstalled) && thisenv == old(thisenv)
    {
      Commit(MemMove(L, cur, Snapshot(), dstVa, srcVa));
    }

    /** set_pgfault_handler: records that the fork code's handler is registered. */
    method SetPgfaultHandler()
      requires Valid()
      modifies this
      ensures Valid() && handlerInstalled
      ensures Snapshot() == old(Snapshot()) && thisenv == old(thisenv)
    {
      handlerInstalled := true;
    }

    /** The child's `thisenv` fix-up: the global now names the running environment. */
    method FixThisEnv()
      requires Valid()
      modifies this
      ensures Valid() && thisenv == cur
      ensures Snapshot() == old(Snapshot()) && handlerInstalled == old(handlerInstalled)
    {
      thisenv := cur;
    }
  }
}
