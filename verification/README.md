# Copy-on-write fork in user space (lib/fork.c), modelled in Dafny

This project models JOS's user-level `fork` library, `lib/fork.c`. A parent
environment creates a child with `sys_exofork`. It then walks every page
below `UTOP`, with one exception: the user exception-stack page. Each page
goes to `duppage`:

- a `PTE_SHARE` page is mapped into the child as it is;
- a private writable page becomes copy-on-write, read-only with `PTE_COW`
  (0x800), in both the child and the parent;
- any other private page goes to the child unchanged, and the parent is
  remapped only if the page was already copy-on-write.

After the walk, the parent gives the child:

1. a fresh exception stack;
2. the page-fault upcall;
3. the runnable state.

Later, a write to a copy-on-write page reaches `pgfault`. It checks that the
fault is a write to a copy-on-write page, and panics otherwise. It then
replaces the page with a private writable copy in three steps:

1. allocate a frame at `PFTEMP`;
2. copy the bytes;
3. map the new frame over the faulting page.

`sfork` is not implemented and always panics.

The modules:

- **`Layouts`** (`layout.dfy`) holds the constants.
  - A 32-bit flag word is the set of positions of its 1-bits (`Bits`), so
    `&` is `*` and `|` is `+`.
  - `PTE_COW` is bit 11.
  - `PGSIZE` (4096) and `PTSIZE` (4 MiB) are the x86 values.
  - Every other header constant (`UTOP`, `UXSTACKTOP`, `PFTEMP`, `PTE_P/U/W`,
    `PTE_SHARE`, `PTE_SYSCALL`, `FEC_WR`, `_pgfault_upcall`) is a field of
    `Layout`. `Layout.Valid()` states what the code assumes about them: the
    bits are distinct and survive the `PTE_SYSCALL` mask, and the
    exception-stack page and `PFTEMP` are page-aligned and below `UTOP`.
- **`PageTables`** (`pagetable.dfy`) is one address space as the code sees
  it through `uvpd`/`uvpt`. It holds the PDE flags per `PDX`, and an entry
  `(frame, flags)` per page-aligned address.
- **`Kernel`** (`kernel.dfy`) holds the system calls the code makes. Each
  is a pure function from a kernel `State` to a `Reply`, the code plus the
  next state. The `State` holds the environments, the frame contents and a
  fresh-frame allocator.
  - The class `Machine` holds that state as fields.
  - Its methods (`SysPageMap`, `SysPageAlloc`, …) update the fields in
    place, and each is proved equal to its function.
  - `StateOk` is the kernel-state invariant that every call preserves.
- **`Perms`** (`perms.dfy`) is duppage's permission arithmetic.
- **`Fork`** (`fork.dfy`) holds `pgfault`, `duppage`, `fork` and `sfork`.
  - Each is written as an imperative method on a `Machine`, following the
    C code statement by statement.
  - Each is proved to produce the outcome and the state of a pure
    specification (`DupPageSpec`, `PgFaultSpec`, `ForkParentSpec`).
  - A panic is an outcome (`Panicked(why)`) that ends the call.
- **`ForkProperties`** (`properties.dfy`) proves what those specifications
  guarantee:
  - the effect of one `duppage` on parent and child;
  - the address spaces that a completed `fork` leaves behind;
  - the absence of writable aliasing;
  - the private exception stack;
  - exactly when `pgfault` panics;
  - what `pgfault`'s repair leaves behind.

The model reproduces these behaviours of the code as written:

- `fork` treats any non-zero `sys_exofork` result as a child id, including
  a negative error.
- `fork` ignores the results of `duppage` and of its three final calls.
- `pgfault` ignores its syscall results, does not check `PTE_W` on the
  faulting page, and leaves `PFTEMP` mapped.

## Model

| member | source | states |
|---|---|---|
| Layouts.Flip | lib/fork.c:99 | `perm ^= PTE_W` toggles exactly that bit and keeps every other bit |
| PageTables.PdeBits | lib/fork.c:32-33 | the PDE word read through uvpd: the flags of the directory slot PDX(va), or the zero word {} when that slot is missing (no contract of its own; stated by PageTables.FlagWords) |
| PageTables.PteBits | lib/fork.c:39-40 | the PTE word read through uvpt: the flags of the entry at ROUNDDOWN(va, PGSIZE), or the zero word {} when there is no entry (no contract of its own; stated by PageTables.FlagWords) |
| PageTables.FlagWords | lib/fork.c:79-85 | the uvpd read gives the flags of slot PDX(va) or {} when it is missing; the uvpt read gives the flags of the entry at ROUNDDOWN(va, PGSIZE) or {} when there is none; every address of a page reads the same words as the page's first address |
| PageTables.RoundDown | lib/fork.c:52 | `ROUNDDOWN(addr, PGSIZE)` is page-aligned and is the start of the page holding addr |
| PageTables.Install | lib/fork.c:53-55 | installing an entry at va makes Lookup(va) that entry and leaves every other address untouched. Afterwards the directory slot covering va has PTE_P: a slot that had PTE_P is kept, and one without it becomes a new PTE_P\|PTE_W\|PTE_U table. Every other slot is unchanged |
| PageTables.InstallKeepsTables | lib/fork.c:53-55 | installing keeps every entry under a directory slot with PTE_P. On such a space, a slot without PTE_P covers no entry, so keeping the other entries when a new table is created drops nothing |
| Kernel.PageMap | lib/fork.c:93 | sys_page_map preserves the kernel invariant, returns 0 or a negative code, and changes nothing on error. On success both environments exist, both addresses are user pages, the source page lies under a directory slot with PTE_P, perm is a user permission, and the destination maps the source's frame with perm\|PTE_P. It never touches frames or the allocator |
| Kernel.PageMapInstalls | lib/fork.c:102-105 | a sys_page_map whose arguments pass every kernel check returns 0 and replaces only the destination's address space |
| Kernel.PageAlloc | lib/fork.c:53 | sys_page_alloc preserves the invariant. It succeeds iff the environment exists, va is a user page and perm is a user permission. On success it maps the next fresh frame, zero-filled, with perm\|PTE_P; only the target's address space changes, by that one Install, and the allocator advances by one. On error nothing changes |
| Kernel.SetStatus | lib/fork.c:139 | sys_env_set_status succeeds iff the environment exists, then changes only its status |
| Kernel.SetUpcall | lib/fork.c:138 | sys_env_set_pgfault_upcall succeeds iff the environment exists, then changes only its upcall |
| Kernel.Exofork | lib/fork.c:131 | sys_exofork returns its result. A positive result adds a new environment: not runnable, empty address space, no upcall. Zero or a negative result changes nothing |
| Kernel.MemMove | lib/fork.c:54 | memmove of one page: the frame behind the destination receives the bytes of the frame behind the source, and nothing else changes |
| Kernel.NextFrameUnmapped | lib/fork.c:53 | the frame the allocator hands out next is mapped by no environment and holds no contents |
| Kernel.Machine.SysPageMap | lib/fork.c:93 | the in-place sys_page_map returns the code of PageMap and leaves the state PageMap produces |
| Kernel.Machine.SysPageAlloc | lib/fork.c:137 | the in-place sys_page_alloc returns the code of PageAlloc and leaves the state PageAlloc produces |
| Kernel.Machine.SysEnvSetStatus | lib/fork.c:139 | the in-place sys_env_set_status leaves the state SetStatus produces |
| Kernel.Machine.SysEnvSetPgfaultUpcall | lib/fork.c:138 | the in-place sys_env_set_pgfault_upcall leaves the state SetUpcall produces |
| Kernel.Machine.SysExofork | lib/fork.c:131 | the in-place sys_exofork returns its result and leaves the state Exofork produces |
| Kernel.Machine.PageMove | lib/fork.c:54 | the in-place memmove leaves the state MemMove produces |
| Kernel.Machine.SetPgfaultHandler | lib/fork.c:130 | set_pgfault_handler registers the handler and changes no kernel state |
| Kernel.Machine.FixThisEnv | lib/fork.c:143 | the child's fix-up makes `thisenv` name the running environment and changes nothing else |
| Perms.Masked | lib/fork.c:89 | `*pte & PTE_SYSCALL` lies within PTE_SYSCALL and has exactly the PTE's bits inside PTE_SYSCALL, in particular PTE_P, PTE_W, PTE_U, PTE_SHARE and PTE_COW |
| Perms.DupPerm | lib/fork.c:91-101 | a PTE_SHARE permission is kept. A private writable one loses PTE_W, gains PTE_COW and keeps every other bit. A private read-only one is kept |
| Perms.RemapsParent | lib/fork.c:104 | the parent is remapped (`perm & PTE_COW` after the rewrite) iff the page is not PTE_SHARE and was writable or already copy-on-write |
| Perms.PrivatePageNotWritable | lib/fork.c:97-106 | a private page is never installed with PTE_W, and the parent is remapped iff the page was writable or already copy-on-write |
| Perms.DupPermIsUserPerm | lib/fork.c:89-102 | the installed permission stays within PTE_SYSCALL, keeps PTE_P, PTE_U and PTE_SHARE, and never adds PTE_W, so sys_page_map accepts it |
| Fork.PageAddr | lib/fork.c:78 | `pn*PGSIZE` in 32-bit arithmetic is a page-aligned 32-bit address, equal to pn*PGSIZE when that does not overflow |
| Fork.Classify | lib/fork.c:78-89 | a page duppage treats as mapped has present user PDE bits, a PTE at its page address whose frame is reported, and a masked permission holding PTE_P and PTE_U, which is exactly `*pte & PTE_SYSCALL` |
| Fork.FaultCheck | lib/fork.c:30-45 | pgfault's validation passes iff the error code has FEC_WR, the PDE has PTE_P, PTE_U and PTE_W, and the PTE has PTE_P, PTE_U and PTE_COW. With FEC_WR set, a failing PDE is reported before any PTE check |
| Fork.AllocThenCopy | lib/fork.c:53-54 | once validation passes, the sys_page_alloc at PFTEMP succeeds, and afterwards PFTEMP and the faulting page are both present, so the memmove between them is defined |
| Fork.DupPageSpec | lib/fork.c:72-108 | duppage preserves the kernel invariant and changes no frame, no allocator state and no set of environments |
| Fork.DupLoop | lib/fork.c:134-136 | fork's page loop preserves the invariant, either completes or panics, and changes no frame or environment set |
| Fork.DupLoopStep | lib/fork.c:134-136 | one iteration of the loop: past UTOP the loop completes, the exception-stack page is skipped, any other page goes to duppage, and a panic ends the loop |
| Fork.ForkParentSpec | lib/fork.c:132-140 | the parent's branch of fork preserves the invariant and either returns the child id or panics |
| Fork.PgFaultSpec | lib/fork.c:16-59 | pgfault preserves the kernel invariant |
| Fork.DupPage | lib/fork.c:72-108 | the imperative duppage, which rewrites `perm` in place, returns DupPageSpec's outcome and leaves its state |
| Fork.PgFault | lib/fork.c:16-59 | the imperative pgfault returns PgFaultSpec's outcome and leaves its state |
| Fork.Fork | lib/fork.c:126-146 | fork always registers the handler. If sys_exofork gives 0, fork returns 0, changes no kernel state, and fixes `thisenv`. Otherwise, through the loop with its invariant, it returns ForkParentSpec's outcome and leaves its state |
| Fork.Sfork | lib/fork.c:149-154 | sfork always panics |
| ForkProperties.DupPageInspection | lib/fork.c:78-88 | duppage returns 0 and changes nothing when the PDE, or the PTE under a user PDE, is not present. It panics, changing nothing, when a present PDE or PTE lacks PTE_U |
| ForkProperties.DupPageCases | lib/fork.c:89-106 | a PTE_SHARE page goes to the child with the same frame and masked permission, and the parent keeps its entry. A private writable page goes to both with one permission lacking PTE_W, having PTE_COW and otherwise equal. A private read-only page goes to the child unchanged, and the parent is remapped with it only when it is PTE_COW |
| ForkProperties.DupPageSharedEffect | lib/fork.c:91-96 | duppage on a PTE_SHARE page makes one mapping into the child and leaves the parent's entry, every other page and every other environment untouched |
| ForkProperties.DupPagePrivateEffect | lib/fork.c:97-106 | duppage on a private page maps it into the child and, when the result is PTE_COW, remaps the parent. Nothing else changes |
| ForkProperties.DupPageEffect | lib/fork.c:72-108 | one duppage into a live child panics only on a page present without PTE_U. Otherwise it leaves ChildEntry in the child and ParentEntry in the parent at that page, and changes no other page, directory, status, upcall or environment |
| ForkProperties.ClassifyFrame | lib/fork.c:78-89 | how duppage classifies a page depends only on the page directory and that page's entry |
| ForkProperties.LoopPageNext | lib/fork.c:134-135 | moving the loop index past one page removes exactly that page from the pages still to visit |
| ForkProperties.NoBadStep | lib/fork.c:134-136 | after a non-panicking duppage, a later page is present without PTE_U in the new parent iff it was in the old parent |
| ForkProperties.SkipStep | lib/fork.c:135 | skipping the exception-stack page changes which pages remain only by that page |
| ForkProperties.AbsentStep | lib/fork.c:134-136 | "every remaining page is absent" at index i means the page at i is absent (unless skipped) and every page from i+1 on is absent |
| ForkProperties.ParentStep | lib/fork.c:134-136 | one loop step composes duppage's effect on the parent with the rest of the loop's effect |
| ForkProperties.ChildStep | lib/fork.c:134-136 | one loop step composes duppage's effect on the child with the rest of the loop's effect |
| ForkProperties.DupLoopCompletes | lib/fork.c:134-136 | fork's loop into a live child completes iff no page it visits is present without PTE_U |
| ForkProperties.DupLoopEffect | lib/fork.c:134-136 | a completed loop leaves ParentEntry in the parent and ChildEntry in the child at every visited page. It leaves every other page, the parent's directory, statuses, upcalls and other environments untouched |
| ForkProperties.DupPageNoChild | lib/fork.c:78-93 | duppage into a missing environment changes nothing, and returns 0 iff the page is absent (sys_page_map fails, so duppage panics, on any present page) |
| ForkProperties.DupLoopNoChild | lib/fork.c:132-136 | the loop with a negative id changes nothing, and completes iff every page it visits is absent |
| ForkProperties.ForkParentOutcome | lib/fork.c:132-140 | fork with a new child returns the child id iff no page below UTOP other than the exception stack is present without PTE_U, and panics otherwise |
| ForkProperties.ForkParentResult | lib/fork.c:132-140 | in a run where the parent takes no page fault during the loop, a completed fork leaves the child existing, runnable and with the upcall. Each visited page is mapped per duppage in child and parent, and no other page is given to the child. The child's exception stack is a fresh zero-filled frame that nothing mapped before, with PTE_U\|PTE_P\|PTE_W. The parent's directory, its own exception stack and every other environment are untouched |
| ForkProperties.ForkBadChildId | lib/fork.c:132 | when sys_exofork fails, fork still takes the parent branch. It changes nothing, and returns the error only when every visited page is absent; otherwise it panics |
| ForkProperties.EntriesNoWritableAlias | lib/fork.c:97-106 | child and parent entries for a mapped page share its frame, and are either PTE_SHARE or writable on neither side |
| ForkProperties.ForkNoWritableAliasing | lib/fork.c:132-140 | after a fork in which the parent took no page fault during the loop, every page the child has outside the exception stack maps the parent's frame and is PTE_SHARE or writable in neither |
| ForkProperties.ForkExceptionStackPrivate | lib/fork.c:135-137 | after fork the child's exception stack is not copy-on-write, and no page of the parent maps its frame |
| ForkProperties.PgFaultPanics | lib/fork.c:30-45 | pgfault panics iff the error code lacks FEC_WR, the PDE lacks PTE_P, PTE_U or PTE_W, or the PTE lacks PTE_P, PTE_U or PTE_COW. A panic changes nothing; otherwise pgfault returns normally |
| ForkProperties.PgFaultRepairs | lib/fork.c:52-55 | after validation, a frame that no environment mapped before is mapped PTE_P\|PTE_U\|PTE_W (no PTE_COW) at PFTEMP, and also at the faulting page when it lies below UTOP. The new frame holds the old page's bytes, except when the faulting page is PFTEMP itself: sys_page_alloc (lib/fork.c:53) has already replaced that mapping, so the memmove reads the fresh zero page and the frame holds zeros. The allocator advances by one, and no other page or environment changes |

## Left out

- The kernel is not part of this model. Each system call is a function with
  the obvious meaning: map, allocate fresh, set a field.
- Kernel.PageAlloc: never fails with -E_NO_MEM. The allocator always has a
  fresh frame.
- Kernel.PageMap: does not model envid2env's permission check (the caller
  must be the target or its parent). It does not model -E_NO_MEM when a new
  page table is needed.
- Kernel.Machine.SetPgfaultHandler: only records that the handler is
  registered. On its first call, set_pgfault_handler also allocates the
  caller's exception stack and sets its upcall; lib/pgfault.c is not part of
  this model.
- The assembly trampoline `_pgfault_upcall` is only an address
  (`Layout.upcallEntry`). How a fault reaches `pgfault` is not modelled.
- The `PGADDR(0x3BD, …)` recursive-mapping reads are modelled as direct reads
  of the page-directory and page-table state (`PdeBits`, `PteBits`).
- `thisenv` is a ghost field naming the environment the global points at. The
  `UENVS + ENVX(sys_getenvid())` pointer arithmetic is not modelled.
- `sys_exofork` "returns twice". The model covers one side at a time, taking
  the returned value as an input. Concurrency between parent and child is not
  modelled.
- Fork.ForkParentSpec: the order of the three final calls, which makes the
  child runnable only after its exception stack and upcall, is shown by
  composition in the specification. There is no log of system calls.
- ForkProperties.ForkParentResult: says what the child's page table maps, but
  not which page-directory slots the kernel created for it.
- ForkProperties.ForkParentResult: faults the parent takes during the loop are
  not modelled; this lemma and ForkProperties.ForkNoWritableAliasing describe a
  run without them. In a real run, duppage marks the parent's own stack page
  PTE_COW (lib/fork.c:104-105). The next call then writes to that page, and
  pgfault gives the parent a fresh PTE_P|PTE_U|PTE_W frame there. So for that
  page the parent does not hold ParentEntry, the allocator moves on by more
  than one frame, and the child's page no longer shares the parent's frame.
- PageTables.Install: keeps the other entries of a directory slot that lacked
  PTE_P. The kernel creates an empty table there instead. The two agree
  whenever every entry lies under a present slot
  (PageTables.InstallKeepsTables). The kernel-state invariant does not
  include that condition.
- `PGSIZE` and `PTSIZE` are fixed at the x86 values rather than left abstract.
- Fork.PgFaultSpec: its own contract states only that the kernel invariant is
  kept. What pgfault does is stated by ForkProperties.PgFaultPanics and
  ForkProperties.PgFaultRepairs.
- Fork.DupPageSpec: its own contract states only the invariant and the
  unchanged frames. What duppage does is stated by the DupPage lemmas in
  ForkProperties.
