/** The page allocator (kernel/kalloc.c) and the user half of kernel/vm.c, with
    `proc_pagetable` and `proc_freepagetable` of kernel/proc.c.  Addresses are counted in
    pages; the free list runs through the first word of the free pages. */
module Vm {
  import opened Common
  import opened PageTable

  function Filled(x: nat): Page {
    seq(512, i => x)
  }

  const JunkFreed := 0x0101010101010101
  const JunkAllocated := 0x0505050505050505

  predicate NextOk(mem: map<nat, Page>, free: seq<nat>, i: nat)
    requires i < |free|
  {
    free[i] in mem && mem[free[i]][0] == if i + 1 < |free| then free[i + 1] * PGSIZE else 0
  }

  /** The linked list from `head` holds the pages of `free` in this order. */
  ghost predicate ListOk(mem: map<nat, Page>, head: nat, free: seq<nat>) {
    && head == (if free == [] then 0 else free[0] * PGSIZE)
    && 0 !in free && Distinct(free)
    && forall i {:trigger NextOk(mem, free, i)} :: 0 <= i < |free| ==> NextOk(mem, free, i)
  }

  lemma ListFrame(mem: map<nat, Page>, head: nat, free: seq<nat>, p: nat, page: Page)
    requires ListOk(mem, head, free) && p !in free
    ensures ListOk(mem[p := page], head, free)
  {
    var mem' := mem[p := page];
    forall i | 0 <= i < |free| ensures NextOk(mem', free, i) {
      assert NextOk(mem, free, i);
    }
  }

  /** What growing the page table of r may change: free pages may become its tables, and
      nothing that processes can see changes. */
  ghost predicate OnlyTables(mem: map<nat, Page>, owner: map<nat, Owner>, spaces: map<nat, Space>,
                             mem': map<nat, Page>, owner': map<nat, Owner>, spaces': map<nat, Space>, r: nat)
  {
    && owner'.Keys == owner.Keys && mem.Keys == owner.Keys && mem'.Keys == owner'.Keys
    && spaces'.Keys == spaces.Keys && r in spaces && r in spaces'
    && (forall s :: s in spaces && s != r ==> spaces'[s] == spaces[s])
    && spaces'[r].leaf == spaces[r].leaf
    && (forall n :: n in spaces[r].nodes ==> n in spaces'[r].nodes && spaces'[r].nodes[n] == spaces[r].nodes[n])
    && (forall p :: p in owner && !owner[p].Free? ==> owner'[p] == owner[p])
    && (forall p :: p in owner && (owner[p].Loose? || owner[p].User?) ==> mem'[p] == mem[p])
    && NoLeak(owner, owner', 0)
  }

  /** The kernel keeps hold of no page, other than `held`, that it did not hold before. */
  ghost predicate NoLeak(owner: map<nat, Owner>, owner': map<nat, Owner>, held: nat) {
    forall p {:trigger owner'[p]} :: p in owner && p in owner' && owner'[p].Loose? ==> owner[p].Loose? || p == held
  }

  /** Nothing changes hands or content outside the space r, its tables, the free list and
      the pages of `moved`. */
  ghost predicate Keeps(mem: map<nat, Page>, owner: map<nat, Owner>, spaces: map<nat, Space>,
                        mem': map<nat, Page>, owner': map<nat, Owner>, spaces': map<nat, Space>, r: nat, moved: set<nat>)
  {
    && owner'.Keys == owner.Keys && mem.Keys == owner.Keys && mem'.Keys == owner'.Keys
    && spaces'.Keys == spaces.Keys && r in spaces && r in spaces'
    && (forall s :: s in spaces && s != r ==> spaces'[s] == spaces[s])
    && (forall p :: p in owner && p !in moved && !owner[p].Free? ==> owner'[p] == owner[p])
    && (forall p :: p in owner && p !in moved && (owner[p].Loose? || owner[p].User?) ==> mem'[p] == mem[p])
  }

  lemma KeepsTrans(m0: map<nat, Page>, o0: map<nat, Owner>, s0: map<nat, Space>,
                   m1: map<nat, Page>, o1: map<nat, Owner>, s1: map<nat, Space>,
                   m2: map<nat, Page>, o2: map<nat, Owner>, s2: map<nat, Space>, r: nat, a: set<nat>, b: set<nat>, c: set<nat>)
    requires Keeps(m0, o0, s0, m1, o1, s1, r, a) && Keeps(m1, o1, s1, m2, o2, s2, r, b) && a + b <= c
    ensures Keeps(m0, o0, s0, m2, o2, s2, r, c)
  {
  }

  /** A page that was free at first may move. */
  lemma KeepsFresh(m0: map<nat, Page>, o0: map<nat, Owner>, s0: map<nat, Space>,
                   m1: map<nat, Page>, o1: map<nat, Owner>, s1: map<nat, Space>,
                   m2: map<nat, Page>, o2: map<nat, Owner>, s2: map<nat, Space>, r: nat, p: nat)
    requires Keeps(m0, o0, s0, m1, o1, s1, r, {}) && Keeps(m1, o1, s1, m2, o2, s2, r, {p}) && p in o0 && o0[p].Free?
    ensures Keeps(m0, o0, s0, m2, o2, s2, r, {})
  {
  }

  lemma OnlyTablesTrans(m0: map<nat, Page>, o0: map<nat, Owner>, s0: map<nat, Space>,
                        m1: map<nat, Page>, o1: map<nat, Owner>, s1: map<nat, Space>,
                        m2: map<nat, Page>, o2: map<nat, Owner>, s2: map<nat, Space>, r: nat)
    requires OnlyTables(m0, o0, s0, m1, o1, s1, r) && OnlyTables(m1, o1, s1, m2, o2, s2, r)
    ensures OnlyTables(m0, o0, s0, m2, o2, s2, r)
  {
  }

  lemma TablesThenKeeps(m0: map<nat, Page>, o0: map<nat, Owner>, s0: map<nat, Space>,
                        m1: map<nat, Page>, o1: map<nat, Owner>, s1: map<nat, Space>,
                        m2: map<nat, Page>, o2: map<nat, Owner>, s2: map<nat, Space>, r: nat, moved: set<nat>)
    requires OnlyTables(m0, o0, s0, m1, o1, s1, r) && Keeps(m1, o1, s1, m2, o2, s2, r, moved)
    ensures Keeps(m0, o0, s0, m2, o2, s2, r, moved)
  {
  }

  lemma NoLeakTrans(o0: map<nat, Owner>, o1: map<nat, Owner>, o2: map<nat, Owner>)
    requires o0.Keys <= o1.Keys && NoLeak(o0, o1, 0) && NoLeak(o1, o2, 0)
    ensures NoLeak(o0, o2, 0)
  {
    forall p {:trigger o2[p]} | p in o0 && p in o2 && o2[p].Loose? ensures o0[p].Loose? || p == 0 {
      assert o1[p].Loose? || p == 0;
    }
  }

  lemma MapRangeGrows(leaf: map<nat, Leaf>, v: nat, n: nat, ppn: nat, flags: nat, w: nat, q: nat)
    requires w == v + n && q == ppn + n
    ensures MapRange(leaf, v, n + 1, ppn, flags) == MapRange(leaf, v, n, ppn, flags)[w := Leaf(q, flags)]
    ensures MapRange(leaf, v, 0, ppn, flags) == leaf
  {
    RangeGrows(v, n, w);
  }

  lemma RangeGrows(v: nat, n: nat, x: nat)
    requires x == v + n
    ensures Range(v, n + 1) == Range(v, n) + {x}
  {
    assert InRange(v + n, v, n + 1);
    forall w | w in Range(v, n) ensures w in Range(v, n + 1) {
      assert InRange(w, v, n + 1);
    }
  }

  function MapRange(leaf: map<nat, Leaf>, v: nat, n: nat, ppn: nat, flags: nat): map<nat, Leaf> {
    map w | w in leaf.Keys + Range(v, n) :: if InRange(w, v, n) then Leaf(ppn + (w - v), flags) else leaf[w]
  }

  predicate InRange(w: nat, v: nat, n: nat) {
    v <= w < v + n
  }

  function Range(v: nat, n: nat): set<nat> {
    set w: nat | v <= w < v + n && InRange(w, v, n)
  }

  /** Of the n pages from ppn that are mapped from v on, the ones that the space then owns. */
  function Taken(v: nat, n: nat, ppn: nat): set<nat> {
    set p | p in Range(ppn, n) && IsUser(v + (p - ppn))
  }

  lemma TakenGrows(v: nat, n: nat, ppn: nat, p: nat)
    requires p == ppn + n
    ensures Taken(v, n + 1, ppn) == Taken(v, n, ppn) + if IsUser(v + n) then {p} else {}
    ensures Taken(v, 0, ppn) == {}
  {
    RangeGrows(ppn, n, p);
    assert Range(ppn, 0) == {};
  }

  /** The n pages from v are unmapped and will get the consecutive pages from ppn. */
  ghost predicate Mappable(owner: map<nat, Owner>, spaces: map<nat, Space>, r: nat, v: nat, n: nat, ppn: nat) {
    && r in spaces && v + n <= MAXVPN
    && (forall w: nat {:trigger InRange(w, v, n)} :: InRange(w, v, n) ==> w !in spaces[r].leaf)
    && (forall w: nat {:trigger InRange(w, v, n)} :: InRange(w, v, n) && IsUser(w) ==>
          ppn + (w - v) in owner && owner[ppn + (w - v)] == Loose)
  }

  /** The owner of a page after n pages from v of space r were unmapped. */
  function Detached(o: Owner, r: nat, v: nat, n: nat, to: Owner): Owner {
    if o.User? && o.root == r && InRange(o.vpn, v, n) then to else o
  }

  function Without(leaf: map<nat, Leaf>, v: nat, n: nat): map<nat, Leaf> {
    map w | w in leaf && !InRange(w, v, n) :: leaf[w]
  }

  lemma WithoutGrows(leaf: map<nat, Leaf>, v: nat, n: nat, w: nat)
    requires w == v + n
    ensures Without(leaf, v, n + 1) == Without(leaf, v, n) - {w} && Without(leaf, v, 0) == leaf
  {
  }

  /** Pages needed for sz bytes: PGROUNDUP(sz) / PGSIZE. */
  function Pages(sz: nat): nat {
    (sz + PGSIZE - 1) / PGSIZE
  }

  /** What a fresh user page should hold. */
  datatype Want = Want(flags: nat, page: Page)

  class Memory {
    var mem: map<nat, Page>
    var freelist: nat
    ghost var free: seq<nat>
    ghost var owner: map<nat, Owner>
    ghost var spaces: map<nat, Space>

    ghost predicate Valid()
      reads this
    {
      ListOk(mem, freelist, free) && Ok(mem, free, owner, spaces)
    }

    // ---- kernel/kalloc.c ----

    method Kalloc() returns (p: nat)
      requires ListOk(mem, freelist, free)
      modifies this`mem, this`freelist, this`free
      ensures ListOk(mem, freelist, free)
      ensures old(free) == [] ==> p == 0 && free == [] && mem == old(mem)
      ensures old(free) != [] ==> p != 0 && old(free) == [p] + free && mem == old(mem)[p := Filled(JunkAllocated)]
    {
      var r := freelist;
      p := r / PGSIZE;
      if r != 0 {
        assert NextOk(mem, free, 0);
        freelist := mem[p][0];
        ghost var rest, mem' := free[1..], mem[p := Filled(JunkAllocated)];
        forall i | 0 <= i < |rest| ensures NextOk(mem', rest, i) {
          assert NextOk(mem, free, i + 1);
        }
        free := rest;
        mem := mem[p := Filled(JunkAllocated)];
      }
    }

    /** `kfree`; the page must not be on the list already. */
    method Kfree(p: nat)
      requires ListOk(mem, freelist, free) && p in mem && p != 0 && p !in free
      modifies this`mem, this`freelist, this`free
      ensures ListOk(mem, freelist, free) && free == [p] + old(free)
      ensures mem == old(mem)[p := Filled(JunkFreed)[0 := old(freelist)]]
    {
      ghost var mem' := mem;
      ghost var list := [p] + free;
      mem := mem[p := Filled(JunkFreed)[0 := freelist]];
      forall i | 0 <= i < |list| ensures NextOk(mem, list, i) {
        assert i > 0 ==> NextOk(mem', free, i - 1);
      }
      freelist := p * PGSIZE;
      free := list;
    }

    /** At boot every page of RAM above `end` is the kernel's own. */
    constructor (ram: set<nat>)
      requires 0 !in ram
      ensures Valid() && free == [] && spaces == map[]
      ensures owner == map p | p in ram :: Loose
    {
      mem := map p | p in ram :: Zeros();
      freelist := 0;
      free := [];
      owner := map p | p in ram :: Loose;
      spaces := map[];
    }

    /** Hands a page that the kernel holds to the free list. */
    method Release(p: nat)
      requires Valid() && p in owner && owner[p] == Loose
      modifies this`mem, this`freelist, this`free, this`owner
      ensures Valid() && owner == old(owner)[p := Free] && free == [p] + old(free)
      ensures p in mem && mem == old(mem)[p := mem[p]]
    {
      ghost var mem', free' := mem, free;
      assert OwnerOk(free, owner, spaces, p);
      Kfree(p);
      FreeOk(mem', free', owner, spaces, p, mem[p]);
      owner := owner[p := Free];
    }

    /** Takes a page from the free list for the kernel. */
    method Take() returns (p: nat)
      requires Valid()
      modifies this`mem, this`freelist, this`free, this`owner
      ensures Valid()
      ensures old(free) == [] ==> p == 0 && free == [] && mem == old(mem) && owner == old(owner)
      ensures old(free) != [] ==> p in old(owner) && old(owner)[p] == Free && old(free) == [p] + free
      ensures old(free) != [] ==> p != 0 && owner == old(owner)[p := Loose] && p in mem && mem == old(mem)[p := mem[p]]
    {
      ghost var mem', free' := mem, free;
      p := Kalloc();
      if p != 0 {
        assert free' [0] in free' && OwnerOk(free', owner, spaces, free'[0]);
        AllocOk(mem', free', owner, spaces, mem[p]);
        assert free'[1..] == free;
        owner := owner[p := Loose];
      }
    }

    method Zero(p: nat)
      requires Valid() && p in owner && owner[p] == Loose
      modifies this`mem
      ensures Valid() && mem == old(mem)[p := Zeros()]
    {
      assert OwnerOk(free, owner, spaces, p);
      StoreOk(mem, free, owner, spaces, p, Zeros());
      ListFrame(mem, freelist, free, p, Zeros());
      mem := mem[p := Zeros()];
    }

    /** `freerange`: page by page, each once. */
    method FreeRange(lo: nat, hi: nat)
      requires Valid() && lo <= hi
      requires forall p :: lo <= p < hi ==> p in owner && owner[p] == Loose
      modifies this`mem, this`freelist, this`free, this`owner
      ensures Valid() && owner.Keys == old(owner).Keys
      ensures forall p :: p in owner ==> owner[p] == if lo <= p < hi then Free else old(owner)[p]
    {
      var p := lo;
      while p < hi
        invariant lo <= p <= hi && Valid() && owner.Keys == old(owner).Keys
        invariant forall q :: q in owner ==> owner[q] == if lo <= q < p then Free else old(owner)[q]
      {
        Release(p);
        p := p + 1;
      }
    }

    // ---- kernel/vm.c ----

    /** The else-branch of `walk`: a new zeroed page below an empty entry. */
    method NewTable(ghost r: nat, ghost n: Node, i: nat, t: nat) returns (child: nat)
      requires Valid() && r in spaces && n in spaces[r].nodes && t == spaces[r].nodes[n] && 0 < n.level && i < 512
      requires Child(n, i) !in spaces[r].nodes
      modifies this`mem, this`freelist, this`free, this`owner, this`spaces
      ensures Valid() && OnlyTables(old(mem), old(owner), old(spaces), mem, owner, spaces, r)
      ensures child != 0 ==> Child(n, i) in spaces[r].nodes && child == spaces[r].nodes[Child(n, i)]
      ensures child == 0 ==> free == old(free) == [] && spaces == old(spaces)
      ensures |old(free)| <= |free| + 1
    {
      child := Take();
      if child != 0 {
        Zero(child);
        Attach(r, n, i, t, child);
      }
    }

    method Attach(ghost r: nat, ghost n: Node, i: nat, t: nat, child: nat)
      requires Valid() && r in spaces && n in spaces[r].nodes && t == spaces[r].nodes[n] && 0 < n.level && i < 512
      requires Child(n, i) !in spaces[r].nodes && child in owner && owner[child] == Loose && mem[child] == Zeros()
      modifies this`mem, this`owner, this`spaces
      ensures Valid() && t in old(mem) && t in old(owner) && old(owner)[t].Table?
      ensures mem == old(mem)[t := old(mem)[t][i := Pte(child, PTE_V)]] && owner == old(owner)[child := Table(r, Child(n, i))]
      ensures spaces == old(spaces)[r := old(spaces)[r].(nodes := old(spaces)[r].nodes[Child(n, i) := child])]
    {
      ghost var sp := spaces[r];
      assert SpaceOk(mem, owner, r, spaces[r]) && NodeOk(mem, owner, r, sp, n) && OwnerOk(free, owner, spaces, t);
      AddTableOk(mem, free, owner, spaces, r, n, i, child);
      ListFrame(mem, freelist, free, t, mem[t][i := Pte(child, PTE_V)]);
      mem := mem[t := mem[t][i := Pte(child, PTE_V)]];
      owner := owner[child := Table(r, Child(n, i))];
      spaces := spaces[r := sp.(nodes := sp.nodes[Child(n, i) := child])];
    }

    /** What the entry of a directory page says. */
    lemma ReadDir(r: nat, n: Node, i: nat)
      requires Valid() && r in spaces && n in spaces[r].nodes && 0 < n.level && i < 512
      ensures var sp := spaces[r]; var t := sp.nodes[n];
        && t in mem
        && (mem[t][i] % 2 == 1 <==> Child(n, i) in sp.nodes)
        && (Child(n, i) in sp.nodes ==> PpnOf(mem[t][i]) == sp.nodes[Child(n, i)])
    {
      var sp := spaces[r];
      assert SpaceOk(mem, owner, r, spaces[r]) && NodeOk(mem, owner, r, sp, n) && DirEntry(mem, sp, n, i);
      if Child(n, i) in sp.nodes {
        PteRoundTrip(sp.nodes[Child(n, i)], PTE_V);
      }
    }

    /** One level of `walk`: descends through entry Px(v, level) of the table page t, and
        with `alloc` creates the page below it. */
    method Descend(ghost r: nat, v: nat, level: nat, t: nat, alloc: bool) returns (ok: bool, child: nat)
      requires Valid() && r in spaces && v < MAXVPN && 1 <= level <= 2
      requires NodeFor(v, level) in spaces[r].nodes && t == spaces[r].nodes[NodeFor(v, level)]
      modifies this`mem, this`freelist, this`free, this`owner, this`spaces
      ensures Valid() && OnlyTables(old(mem), old(owner), old(spaces), mem, owner, spaces, r)
      ensures ok ==> NodeFor(v, level - 1) in spaces[r].nodes && child == spaces[r].nodes[NodeFor(v, level - 1)]
      ensures !alloc ==> mem == old(mem) && freelist == old(freelist) && free == old(free) && owner == old(owner) && spaces == old(spaces)
      ensures !ok ==> NodeFor(v, level - 1) !in spaces[r].nodes && (alloc ==> free == old(free) == [])
      ensures |old(free)| <= |free| + 1
      ensures NodeFor(v, level - 1) in old(spaces)[r].nodes ==> free == old(free)
    {
      PathStep(v, level);
      ReadDir(r, NodeFor(v, level), Px(v, level));
      var pte := mem[t][Px(v, level)];
      if pte % 2 == 1 {
        return true, PpnOf(pte);
      }
      if !alloc {
        return false, 0;
      }
      child := NewTable(r, NodeFor(v, level), Px(v, level), t);
      ok := child != 0;
    }

    /** `walk`: the page holding the leaf entry of page v, or failure.  Without `alloc` nothing
        changes; with it, only page-table pages are added, and it fails only when memory is
        exhausted. */
    method Walk(r: nat, v: nat, alloc: bool) returns (ok: bool, t: nat)
      requires Valid() && r in spaces && v < MAXVPN
      modifies this`mem, this`freelist, this`free, this`owner, this`spaces
      ensures Valid() && OnlyTables(old(mem), old(owner), old(spaces), mem, owner, spaces, r)
      ensures ok ==> NodeFor(v, 0) in spaces[r].nodes && t == spaces[r].nodes[NodeFor(v, 0)]
      ensures !alloc ==> mem == old(mem) && freelist == old(freelist) && free == old(free) && owner == old(owner) && spaces == old(spaces)
      ensures !ok ==> NodeFor(v, 0) !in spaces[r].nodes && (alloc ==> free == [] && |old(free)| <= 1)
      ensures |old(free)| <= |free| + 2 && (NodeFor(v, 0) in old(spaces)[r].nodes ==> free == old(free))
    {
      assert SpaceOk(mem, owner, r, spaces[r]);
      t := r;
      var level := 2;
      while level > 0
        invariant 0 <= level <= 2 && |old(free)| <= |free| + (2 - level)
        invariant NodeFor(v, 0) in old(spaces)[r].nodes ==> free == old(free)
        invariant Valid() && OnlyTables(old(mem), old(owner), old(spaces), mem, owner, spaces, r)
        invariant NodeFor(v, level) in spaces[r].nodes && t == spaces[r].nodes[NodeFor(v, level)]
        invariant !alloc ==> mem == old(mem) && freelist == old(freelist) && free == old(free) && owner == old(owner) && spaces == old(spaces)
      {
        ghost var m1, o1, s1 := mem, owner, spaces;
        if NodeFor(v, level - 1) !in spaces[r].nodes { NoPath(r, v, level - 1); }
        ok, t := Descend(r, v, level, t, alloc);
        OnlyTablesTrans(old(mem), old(owner), old(spaces), m1, o1, s1, mem, owner, spaces, r);
        if !ok {
          NoPath(r, v, level - 1);
          return;
        }
        level := level - 1;
      }
      ok := true;
    }

    lemma NoPath(r: nat, v: nat, level: nat)
      requires Valid() && r in spaces && v < MAXVPN && level <= 1 && NodeFor(v, level) !in spaces[r].nodes
      ensures NodeFor(v, 0) !in spaces[r].nodes
    {
      assert SpaceOk(mem, owner, r, spaces[r]);
      assert NodeFor(v, 0) in spaces[r].nodes ==> NodeOk(mem, owner, r, spaces[r], NodeFor(v, 0));
    }

    /** One turn of the loop in `mappages`; a page already mapped would be the panic "remap". */
    method MapPage(r: nat, v: nat, ppn: nat, perm: nat) returns (ok: bool)
      requires Valid() && r in spaces && v < MAXVPN && v !in spaces[r].leaf && LeafOk(Leaf(ppn, WithV(perm)))
      requires IsUser(v) ==> ppn in owner && owner[ppn] == Loose
      modifies this`mem, this`freelist, this`free, this`owner, this`spaces
      ensures Valid() && Keeps(old(mem), old(owner), old(spaces), mem, owner, spaces, r, if IsUser(v) then {ppn} else {})
      ensures NoLeak(old(owner), owner, 0)
      ensures ok ==> spaces[r].leaf == old(spaces[r].leaf)[v := Leaf(ppn, WithV(perm))]
      ensures ok && IsUser(v) ==> owner[ppn] == User(r, v) && mem[ppn] == old(mem[ppn])
      ensures !ok ==> OnlyTables(old(mem), old(owner), old(spaces), mem, owner, spaces, r) && free == [] && |old(free)| <= 1
      ensures |old(free)| <= |free| + 2
    {
      var t;
      ok, t := Walk(r, v, true);
      ghost var m1, o1, s1 := mem, owner, spaces;
      if ok {
        WriteLeaf(r, v, t, ppn, perm);
        TablesThenKeeps(old(mem), old(owner), old(spaces), m1, o1, s1, mem, owner, spaces, r, if IsUser(v) then {ppn} else {});
        NoLeakTrans(old(owner), o1, owner);
      }
    }

    method WriteLeaf(ghost r: nat, v: nat, t: nat, ppn: nat, perm: nat)
      requires Valid() && r in spaces && v < MAXVPN && v !in spaces[r].leaf && LeafOk(Leaf(ppn, WithV(perm)))
      requires IsUser(v) ==> ppn in owner && owner[ppn] == Loose
      requires NodeFor(v, 0) in spaces[r].nodes && t == spaces[r].nodes[NodeFor(v, 0)]
      modifies this`mem, this`owner, this`spaces
      ensures Valid() && Keeps(old(mem), old(owner), old(spaces), mem, owner, spaces, r, if IsUser(v) then {ppn} else {})
      ensures NoLeak(old(owner), owner, 0)
      ensures spaces[r] == old(spaces)[r].(leaf := old(spaces)[r].leaf[v := Leaf(ppn, WithV(perm))])
      ensures IsUser(v) ==> owner[ppn] == User(r, v) && mem[ppn] == old(mem[ppn])
    {
      ghost var sp, n, l := spaces[r], NodeFor(v, 0), Leaf(ppn, WithV(perm));
      assert SpaceOk(mem, owner, r, spaces[r]) && NodeOk(mem, owner, r, sp, n) && OwnerOk(free, owner, spaces, t);
      SetLeafOk(mem, free, owner, spaces, r, v, l);
      ListFrame(mem, freelist, free, t, mem[t][Px(v, 0) := Pte(ppn, WithV(perm))]);
      mem := mem[t := mem[t][Px(v, 0) := Pte(ppn, WithV(perm))]];
      owner := if IsUser(v) then owner[ppn := User(r, v)] else owner;
      spaces := spaces[r := sp.(leaf := sp.leaf[v := l])];
    }

    /** `mappages`: maps the pages from va to va+size-1 to consecutive physical pages, or
        fails for lack of page-table pages after a prefix of m pages. */
    method MapPages(r: nat, va: nat, size: nat, ppn: nat, perm: nat) returns (ok: bool, ghost m: nat)
      requires Valid() && 0 < size && LeafOk(Leaf(ppn, WithV(perm)))
      requires Mappable(owner, spaces, r, va / PGSIZE, (va + size - 1) / PGSIZE - va / PGSIZE + 1, ppn)
      modifies this`mem, this`freelist, this`free, this`owner, this`spaces
      ensures Mapped(old(mem), old(owner), old(spaces), r, va / PGSIZE, m, ppn, WithV(perm))
      ensures ok ==> m == (va + size - 1) / PGSIZE - va / PGSIZE + 1 && |old(free)| <= |free| + 2 * m
      ensures !ok ==> m <= (va + size - 1) / PGSIZE - va / PGSIZE && free == [] && |old(free)| <= 2 * m + 1
    {
      ok, m := MapRun(r, va / PGSIZE, (va + size - 1) / PGSIZE, ppn, perm);
    }

    /** The first m pages of a run of `mappages` that started in (m0, o0, s0) are mapped. */
    ghost predicate Mapped(m0: map<nat, Page>, o0: map<nat, Owner>, s0: map<nat, Space>, r: nat, v: nat, m: nat, ppn: nat, flags: nat)
      reads this
    {
      && Valid() && Keeps(m0, o0, s0, mem, owner, spaces, r, Taken(v, m, ppn)) && NoLeak(o0, owner, 0)
      && spaces[r].leaf == MapRange(s0[r].leaf, v, m, ppn, flags)
    }

    /** In addition, at most two pages a turn were taken from the free list f0. */
    ghost predicate MappedFrom(m0: map<nat, Page>, f0: seq<nat>, o0: map<nat, Owner>, s0: map<nat, Space>,
                               r: nat, v: nat, m: nat, ppn: nat, flags: nat)
      reads this
    {
      Mapped(m0, o0, s0, r, v, m, ppn, flags) && |f0| <= |free| + 2 * m
    }

    method MapNext(r: nat, a: nat, p: nat, perm: nat, ghost m0: map<nat, Page>, ghost f0: seq<nat>, ghost o0: map<nat, Owner>,
                   ghost s0: map<nat, Space>, ghost v: nat, ghost n: nat, ghost m: nat, ghost ppn: nat) returns (ok: bool)
      requires MappedFrom(m0, f0, o0, s0, r, v, m, ppn, WithV(perm)) && a == v + m && p == ppn + m
      requires m < n && Mappable(o0, s0, r, v, n, ppn) && LeafOk(Leaf(p, WithV(perm)))
      modifies this`mem, this`freelist, this`free, this`owner, this`spaces
      ensures ok ==> MappedFrom(m0, f0, o0, s0, r, v, m + 1, ppn, WithV(perm))
      ensures !ok ==> Mapped(m0, o0, s0, r, v, m, ppn, WithV(perm)) && free == [] && |f0| <= 2 * m + 1
    {
      assert InRange(a, v, n);
      ghost var m1, o1, s1 := mem, owner, spaces;
      ok := MapPage(r, a, p, perm);
      if !ok {
        KeepsTrans(m0, o0, s0, m1, o1, s1, mem, owner, spaces, r, Taken(v, m, ppn), {}, Taken(v, m, ppn));
        return;
      }
      MapRangeGrows(s0[r].leaf, v, m, ppn, WithV(perm), a, p);
      TakenGrows(v, m, ppn, p);
      KeepsTrans(m0, o0, s0, m1, o1, s1, mem, owner, spaces, r, Taken(v, m, ppn),
                 if IsUser(a) then {p} else {}, Taken(v, m + 1, ppn));
    }

    lemma MappedNone(r: nat, v: nat, ppn: nat, flags: nat)
      requires Valid() && r in spaces
      ensures MappedFrom(mem, free, owner, spaces, r, v, 0, ppn, flags)
    {
      MapRangeGrows(spaces[r].leaf, v, 0, ppn, flags, v, ppn);
      TakenGrows(v, 0, ppn, ppn);
    }

    method MapRun(r: nat, first: nat, last: nat, ppn: nat, perm: nat) returns (ok: bool, ghost m: nat)
      requires Valid() && first <= last && LeafOk(Leaf(ppn, WithV(perm))) && Mappable(owner, spaces, r, first, last - first + 1, ppn)
      modifies this`mem, this`freelist, this`free, this`owner, this`spaces
      ensures ok ==> m == last - first + 1 && MappedFrom(old(mem), old(free), old(owner), old(spaces), r, first, m, ppn, WithV(perm))
      ensures !ok ==> m <= last - first && Mapped(old(mem), old(owner), old(spaces), r, first, m, ppn, WithV(perm))
      ensures !ok ==> free == [] && |old(free)| <= 2 * m + 1
    {
      var a, p := first, ppn;
      m := 0;
      MappedNone(r, first, ppn, WithV(perm));
      ok := true;
      while a <= last
        invariant first <= a <= last + 1 && p == ppn + m && a == first + m
        invariant MappedFrom(old(mem), old(free), old(owner), old(spaces), r, first, m, ppn, WithV(perm))
      {
        ok := MapNext(r, a, p, perm, old(mem), old(free), old(owner), old(spaces), first, last - first + 1, m, ppn);
        if !ok {
          return;
        }
        m := m + 1;
        a := a + 1;
        p := p + 1;
      }
    }

    /** The entry of a mapped page, and where it is. */
    lemma FindLeaf(r: nat, v: nat)
      requires Valid() && r in spaces && v in spaces[r].leaf
      ensures v < MAXVPN && NodeFor(v, 0) in spaces[r].nodes
      ensures var t := spaces[r].nodes[NodeFor(v, 0)];
        && t in mem && t in owner && owner[t].Table? && t !in free
        && PpnOf(mem[t][Px(v, 0)]) == spaces[r].leaf[v].ppn && FlagsOf(mem[t][Px(v, 0)]) == spaces[r].leaf[v].flags
      ensures IsUser(v) ==> var q := spaces[r].leaf[v].ppn; q in owner && owner[q] == User(r, v) && q in mem && q !in free && q != 0
    {
      var sp := spaces[r];
      var l := sp.leaf[v];
      assert SpaceOk(mem, owner, r, spaces[r]) && LeafOwned(owner, r, sp, v);
      var n := NodeFor(v, 0);
      assert NodeOk(mem, owner, r, sp, n) && LeafEntry(mem, sp, n, Px(v, 0)) && OwnerOk(free, owner, spaces, sp.nodes[n]);
      assert n.prefix * 512 + Px(v, 0) == v;
      PteRoundTrip(l.ppn, l.flags);
      assert IsUser(v) ==> OwnerOk(free, owner, spaces, l.ppn);
    }

    /** One turn of the loop in `uvmunmap`. */
    method UnmapPage(r: nat, v: nat, doFree: bool)
      requires Valid() && r in spaces && v in spaces[r].leaf && (doFree ==> IsUser(v))
      modifies this`mem, this`freelist, this`free, this`owner, this`spaces
      ensures Valid() && Keeps(old(mem), old(owner), old(spaces), mem, owner, spaces, r,
                               if IsUser(v) then {old(spaces[r].leaf[v].ppn)} else {})
      ensures spaces == old(spaces)[r := old(spaces)[r].(leaf := old(spaces)[r].leaf - {v})]
      ensures IsUser(v) ==> old(spaces[r].leaf[v].ppn) in old(owner) && old(owner)[old(spaces[r].leaf[v].ppn)] == User(r, v)
      ensures owner == if IsUser(v) then old(owner)[old(spaces[r].leaf[v].ppn) := if doFree then Free else Loose] else old(owner)
    {
      FindLeaf(r, v);
      var ok, t := Walk(r, v, false);
      if doFree {
        FreeAndClear(r, v, t);
      } else {
        Clear(r, v, t);
      }
    }

    /** `kfree((void*)pa); *pte = 0;` */
    method FreeAndClear(ghost r: nat, v: nat, t: nat)
      requires Valid() && r in spaces && v in spaces[r].leaf && IsUser(v)
      requires NodeFor(v, 0) in spaces[r].nodes && t == spaces[r].nodes[NodeFor(v, 0)]
      modifies this`mem, this`freelist, this`free, this`owner, this`spaces
      ensures Valid() && Keeps(old(mem), old(owner), old(spaces), mem, owner, spaces, r, {old(spaces[r].leaf[v].ppn)})
      ensures spaces == old(spaces)[r := old(spaces)[r].(leaf := old(spaces)[r].leaf - {v})]
      ensures old(spaces[r].leaf[v].ppn) in old(owner) && owner == old(owner)[old(spaces[r].leaf[v].ppn) := Free]
    {
      FindLeaf(r, v);
      var pa := PpnOf(mem[t][Px(v, 0)]);
      ghost var m0, f0 := mem, free;
      Kfree(pa);
      FreeCleared(m0, f0, owner, spaces, r, v, mem[pa]);
      ListFrame(mem, freelist, free, t, mem[t][Px(v, 0) := 0]);
      mem := mem[t := mem[t][Px(v, 0) := 0]];
      owner := owner[pa := Free];
      spaces := spaces[r := spaces[r].(leaf := spaces[r].leaf - {v})];
    }

    /** `*pte = 0;` */
    method Clear(ghost r: nat, v: nat, t: nat)
      requires Valid() && r in spaces && v in spaces[r].leaf && v < MAXVPN
      requires NodeFor(v, 0) in spaces[r].nodes && t == spaces[r].nodes[NodeFor(v, 0)]
      modifies this`mem, this`owner, this`spaces
      ensures Valid() && Keeps(old(mem), old(owner), old(spaces), mem, owner, spaces, r,
                               if IsUser(v) then {old(spaces[r].leaf[v].ppn)} else {})
      ensures spaces == old(spaces)[r := old(spaces)[r].(leaf := old(spaces)[r].leaf - {v})]
      ensures owner == if IsUser(v) then old(owner)[old(spaces[r].leaf[v].ppn) := Loose] else old(owner)
    {
      FindLeaf(r, v);
      ClearLeafOk(mem, free, owner, spaces, r, v);
      ListFrame(mem, freelist, free, t, mem[t][Px(v, 0) := 0]);
      mem := mem[t := mem[t][Px(v, 0) := 0]];
      owner := if IsUser(v) then owner[spaces[r].leaf[v].ppn := Loose] else owner;
      spaces := spaces[r := spaces[r].(leaf := spaces[r].leaf - {v})];
    }

    /** The first m pages of a run of `uvmunmap` that started in (m0, o0, s0) are gone. */
    ghost predicate Unmapped(m0: map<nat, Page>, o0: map<nat, Owner>, s0: map<nat, Space>, r: nat, v: nat, m: nat, doFree: bool)
      reads this
    {
      && Valid() && owner.Keys == o0.Keys && m0.Keys == o0.Keys && r in s0
      && spaces == s0[r := s0[r].(leaf := Without(s0[r].leaf, v, m))]
      && (forall p {:trigger owner[p]} :: p in o0 ==> owner[p] == Detached(o0[p], r, v, m, if doFree then Free else Loose))
      && (forall p {:trigger mem[p]} :: p in o0 && (o0[p].Loose? || o0[p].User?) && owner[p] == o0[p] ==> mem[p] == m0[p])
    }

    method UnmapNext(r: nat, w: nat, doFree: bool, ghost m0: map<nat, Page>, ghost o0: map<nat, Owner>, ghost s0: map<nat, Space>,
                     ghost v: nat, ghost m: nat)
      requires Unmapped(m0, o0, s0, r, v, m, doFree) && w == v + m && w in s0[r].leaf && (doFree ==> IsUser(w))
      requires forall p :: p in o0 && o0[p] == User(r, w) ==> IsUser(w) && s0[r].leaf[w].ppn == p
      modifies this`mem, this`freelist, this`free, this`owner, this`spaces
      ensures Unmapped(m0, o0, s0, r, v, m + 1, doFree)
    {
      WithoutGrows(s0[r].leaf, v, m, w);
      ghost var m1, o1 := mem, owner;
      UnmapPage(r, w, doFree);
      UnmapOwners(m0, o0, s0, m1, o1, mem, owner, r, v, m, w, if doFree then Free else Loose);
    }

    /** `uvmunmap`: removes exactly the n pages from v; with `doFree` each of their physical
        pages goes to the free list, once. */
    method UvmUnmap(r: nat, v: nat, n: nat, doFree: bool)
      requires Valid() && r in spaces
      requires forall w :: v <= w < v + n ==> w in spaces[r].leaf && (doFree ==> IsUser(w))
      modifies this`mem, this`freelist, this`free, this`owner, this`spaces
      ensures Unmapped(old(mem), old(owner), old(spaces), r, v, n, doFree)
    {
      ghost var m0, o0, s0 := mem, owner, spaces;
      WithoutGrows(s0[r].leaf, v, 0, v);
      assert s0 == s0[r := s0[r].(leaf := Without(s0[r].leaf, v, 0))];
      var a := v;
      while a < v + n
        invariant v <= a <= v + n
        invariant Unmapped(m0, o0, s0, r, v, a - v, doFree)
      {
        UserPages(m0, old(free), o0, s0, r, a);
        UnmapNext(r, a, doFree, m0, o0, s0, v, a - v);
        a := a + 1;
      }
    }

    /** `uvmdealloc`. */
    method UvmDealloc(r: nat, oldsz: nat, newsz: nat) returns (sz: nat)
      requires Valid() && r in spaces
      requires forall w :: Pages(newsz) <= w < Pages(oldsz) ==> w in spaces[r].leaf && IsUser(w)
      modifies this`mem, this`freelist, this`free, this`owner, this`spaces
      ensures sz == if newsz < oldsz then newsz else oldsz
      ensures Unmapped(old(mem), old(owner), old(spaces), r, Pages(newsz),
                       if newsz < oldsz then Pages(oldsz) - Pages(newsz) else 0, true)
    {
      ghost var s0 := spaces;
      WithoutGrows(s0[r].leaf, Pages(newsz), 0, Pages(newsz));
      assert s0 == s0[r := s0[r].(leaf := Without(s0[r].leaf, Pages(newsz), 0))];
      if newsz >= oldsz {
        return oldsz;
      }
      assert Pages(newsz) <= Pages(oldsz);
      if Pages(newsz) < Pages(oldsz) {
        UvmUnmap(r, Pages(newsz), Pages(oldsz) - Pages(newsz), true);
      }
      return newsz;
    }

    /** Space r has m more user pages from v on than in (m0, o0, s0): each maps a page that
        was free, with the wanted flags and contents, and nothing else changed. */
    ghost predicate Grown(m0: map<nat, Page>, o0: map<nat, Owner>, s0: map<nat, Space>, r: nat, v: nat, m: nat, want: map<nat, Want>, held: nat)
      reads this
    {
      && Valid() && Keeps(m0, o0, s0, mem, owner, spaces, r, {}) && NoLeak(o0, owner, held)
      && (forall p {:trigger o0[p]} :: p in o0 && o0[p].User? && o0[p].root == r ==> o0[p].vpn in s0[r].leaf)
      && Extends(mem, owner, spaces[r], o0, s0[r], r, v, m, want)
    }

    /** The map of space r is what it was, and no page went astray; free pages may have
        become page tables of r. */
    ghost predicate Restored(m0: map<nat, Page>, o0: map<nat, Owner>, s0: map<nat, Space>, r: nat)
      reads this
    {
      && Valid() && Keeps(m0, o0, s0, mem, owner, spaces, r, {}) && NoLeak(o0, owner, 0)
      && spaces[r].leaf == s0[r].leaf
    }

    lemma GrownNone(r: nat, v: nat, want: map<nat, Want>)
      requires Valid() && r in spaces
      ensures Grown(mem, owner, spaces, r, v, 0, want, 0)
    {
      assert Range(v, 0) == {};
      forall p | p in owner && owner[p].User? && owner[p].root == r ensures owner[p].vpn in spaces[r].leaf {
        assert OwnerOk(free, owner, spaces, p);
      }
    }

    /** Maps one more page; on failure the page is still the caller's. */
    method GrowOne(r: nat, w: nat, p: nat, perm: nat, ghost m0: map<nat, Page>, ghost o0: map<nat, Owner>, ghost s0: map<nat, Space>,
                   ghost v: nat, ghost m: nat, ghost want: map<nat, Want>) returns (ok: bool)
      requires Grown(m0, o0, s0, r, v, m, want, p) && w == v + m && IsUser(w) && w !in s0[r].leaf
      requires p in owner && owner[p] == Loose && p in o0 && o0[p].Free? && LeafOk(Leaf(p, WithV(perm)))
      requires w in want && want[w] == Want(WithV(perm), mem[p])
      modifies this`mem, this`freelist, this`free, this`owner, this`spaces
      ensures ok ==> Grown(m0, o0, s0, r, v, m + 1, want, 0)
      ensures !ok ==> Grown(m0, o0, s0, r, v, m, want, p) && owner[p] == Loose && |old(free)| <= 1
      ensures |old(free)| <= |free| + 2
    {
      ghost var m1, o1, s1 := mem, owner, spaces;
      ok := MapPage(r, w, p, perm);
      if ok {
        ExtendsGrows(m1, o1, s1[r], mem, owner, spaces[r], o0, s0[r], r, v, m, want, w, p);
      } else {
        ExtendsSame(m1, o1, s1[r], mem, owner, spaces[r], o0, s0[r], r, v, m, want);
      }
      KeepsFresh(m0, o0, s0, m1, o1, s1, mem, owner, spaces, r, p);
    }

    /** `kfree(mem)` of a page that was not mapped after all. */
    method Discard(r: nat, p: nat, ghost m0: map<nat, Page>, ghost o0: map<nat, Owner>, ghost s0: map<nat, Space>,
                   ghost v: nat, ghost m: nat, ghost want: map<nat, Want>)
      requires Grown(m0, o0, s0, r, v, m, want, p) && p in owner && owner[p] == Loose && p in o0 && o0[p].Free?
      modifies this`mem, this`freelist, this`free, this`owner
      ensures Grown(m0, o0, s0, r, v, m, want, 0)
    {
      ghost var m1, o1 := mem, owner;
      Release(p);
      ExtendsSame(m1, o1, spaces[r], mem, owner, spaces[r], o0, s0[r], r, v, m, want);
    }

    /** After the error paths of `uvmalloc` and `uvmcopy` the map is again what it was. */
    lemma Undone(m0: map<nat, Page>, o0: map<nat, Owner>, s0: map<nat, Space>, m1: map<nat, Page>, o1: map<nat, Owner>, s1: map<nat, Space>,
                 r: nat, v: nat, m: nat, want: map<nat, Want>)
      requires Keeps(m0, o0, s0, m1, o1, s1, r, {}) && NoLeak(o0, o1, 0) && Extends(m1, o1, s1[r], o0, s0[r], r, v, m, want)
      requires forall p {:trigger o0[p]} :: p in o0 && o0[p].User? && o0[p].root == r ==> o0[p].vpn in s0[r].leaf
      requires forall w :: InRange(w, v, m) ==> w !in s0[r].leaf
      requires Unmapped(m1, o1, s1, r, v, m, true)
      ensures Restored(m0, o0, s0, r)
    {
      forall p | p in o0 && (o0[p].Loose? || o0[p].User?) ensures owner[p] == o0[p] && mem[p] == m0[p] {
        assert o1[p] == o0[p] && owner[p] == Detached(o1[p], r, v, m, Free);
      }
      forall p | p in o0 && owner[p].Loose? ensures o0[p].Loose? {
        assert owner[p] == Detached(o1[p], r, v, m, Free) && OwnerOk(free, owner, spaces, p);
      }
    }

    /** The error path of `uvmcopy`. */
    method Unwind(r: nat, m: nat, ghost m0: map<nat, Page>, ghost o0: map<nat, Owner>, ghost s0: map<nat, Space>, ghost want: map<nat, Want>)
      requires Grown(m0, o0, s0, r, 0, m, want, 0) && m <= TRAPFRAME && forall w :: InRange(w, 0, m) ==> w !in s0[r].leaf
      modifies this`mem, this`freelist, this`free, this`owner, this`spaces
      ensures Restored(m0, o0, s0, r)
    {
      forall w | 0 <= w < m ensures w in spaces[r].leaf {
        assert InRange(w, 0, m);
      }
      ghost var m1, o1, s1 := mem, owner, spaces;
      UvmUnmap(r, 0, m, true);
      Undone(m0, o0, s0, m1, o1, s1, r, 0, m, want);
    }

    /** The error paths of `uvmalloc`: down from page number v + m to v. */
    method Shrink(r: nat, v: nat, m: nat, ghost m0: map<nat, Page>, ghost o0: map<nat, Owner>, ghost s0: map<nat, Space>,
                  ghost want: map<nat, Want>)
      requires Grown(m0, o0, s0, r, v, m, want, 0) && v + m <= TRAPFRAME && forall w :: InRange(w, v, m) ==> w !in s0[r].leaf
      modifies this`mem, this`freelist, this`free, this`owner, this`spaces
      ensures Restored(m0, o0, s0, r)
    {
      assert Pages(v * PGSIZE) == v && Pages((v + m) * PGSIZE) == v + m;
      forall w | v <= w < v + m ensures w in spaces[r].leaf {
        assert InRange(w, v, m);
      }
      ghost var m1, o1, s1 := mem, owner, spaces;
      var sz := UvmDealloc(r, (v + m) * PGSIZE, v * PGSIZE);
      Undone(m0, o0, s0, m1, o1, s1, r, v, m, want);
    }

    /** `uvmalloc`: grows the space from oldsz to newsz bytes with zeroed fresh pages, or
        leaves its map exactly as it was and returns 0. */
    method UvmAlloc(r: nat, oldsz: nat, newsz: nat, xperm: nat) returns (sz: nat, ghost ok: bool)
      requires Valid() && r in spaces && xperm in {0, PTE_W, PTE_X, PTE_W + PTE_X} && Pages(newsz) <= TRAPFRAME
      requires forall w :: Pages(oldsz) <= w < Pages(newsz) ==> w !in spaces[r].leaf
      modifies this`mem, this`freelist, this`free, this`owner, this`spaces
      ensures newsz < oldsz ==> ok && sz == oldsz && mem == old(mem) && owner == old(owner) && spaces == old(spaces)
      ensures oldsz <= newsz && ok ==> sz == newsz && Pages(oldsz) <= Pages(newsz)
      ensures oldsz <= newsz && ok ==> Grown(old(mem), old(owner), old(spaces), r, Pages(oldsz), Pages(newsz) - Pages(oldsz),
                                             ZeroPages(Pages(oldsz), Pages(newsz) - Pages(oldsz), PTE_R + PTE_U + xperm + PTE_V), 0)
      ensures !ok ==> sz == 0 && Restored(old(mem), old(owner), old(spaces), r)
      ensures !ok ==> oldsz <= newsz && |old(free)| < 3 * (Pages(newsz) - Pages(oldsz))
    {
      if newsz < oldsz {
        return oldsz, true;
      }
      assert Pages(oldsz) <= Pages(newsz);
      var done := GrowTo(r, Pages(oldsz), Pages(newsz), PTE_R + PTE_U + xperm);
      if !done {
        return 0, false;
      }
      return newsz, true;
    }

    /** The loop of `uvmalloc`, in pages. */
    method GrowTo(r: nat, v: nat, end: nat, perm: nat) returns (ok: bool)
      requires Valid() && r in spaces && v <= end <= TRAPFRAME && LeafOk(Leaf(0, WithV(perm)))
      requires forall w :: v <= w < end ==> w !in spaces[r].leaf
      modifies this`mem, this`freelist, this`free, this`owner, this`spaces
      ensures ok ==> Grown(old(mem), old(owner), old(spaces), r, v, end - v, ZeroPages(v, end - v, WithV(perm)), 0)
      ensures !ok ==> Restored(old(mem), old(owner), old(spaces), r) && |old(free)| < 3 * (end - v)
    {
      ghost var m0, o0, s0 := mem, owner, spaces;
      ghost var want := ZeroPages(v, end - v, WithV(perm));
      GrownNone(r, v, want);
      var a, m := v, 0;
      while a < end
        invariant a == v + m && a <= end && |old(free)| <= |free| + 3 * m
        invariant Grown(m0, o0, s0, r, v, m, want, 0)
      {
        assert InRange(a, v, end - v);
        var done := PlacePage(r, a, Zeros(), perm, m0, o0, s0, v, m, want);
        if !done {
          Shrink(r, v, m, m0, o0, s0, want);
          return false;
        }
        a := a + 1;
        m := m + 1;
      }
      return true;
    }

    /** Takes a page, fills it and maps it at page number a: the body of the loops in
        `uvmalloc` and `uvmcopy`. */
    method PlacePage(r: nat, a: nat, page: Page, perm: nat, ghost m0: map<nat, Page>, ghost o0: map<nat, Owner>, ghost s0: map<nat, Space>,
                     ghost v: nat, ghost m: nat, ghost want: map<nat, Want>) returns (ok: bool)
      requires Grown(m0, o0, s0, r, v, m, want, 0) && a == v + m && IsUser(a) && a !in s0[r].leaf
      requires LeafOk(Leaf(0, WithV(perm))) && a in want && want[a] == Want(WithV(perm), page)
      modifies this`mem, this`freelist, this`free, this`owner, this`spaces
      ensures ok ==> Grown(m0, o0, s0, r, v, m + 1, want, 0) && |old(free)| <= |free| + 3
      ensures !ok ==> Grown(m0, o0, s0, r, v, m, want, 0) && |old(free)| <= 2
    {
      var p := TakeFresh(r, m0, o0, s0, v, m, want);
      if p == 0 {
        return false;
      }
      StoreFresh(r, p, page, m0, o0, s0, v, m, want);
      ok := GrowOne(r, a, p, perm, m0, o0, s0, v, m, want);
      if !ok {
        Discard(r, p, m0, o0, s0, v, m, want);
      }
    }

    /** `uvmcopy`: the first sz bytes of space q become copies of those of space r, in fresh
        pages with the same flags and bytes; on failure the map of q is what it was. */
    method UvmCopy(r: nat, q: nat, sz: nat) returns (ok: bool)
      requires Valid() && r in spaces && q in spaces && r != q && Pages(sz) <= TRAPFRAME
      requires forall w :: 0 <= w < Pages(sz) ==> w in spaces[r].leaf && w !in spaces[q].leaf
      modifies this`mem, this`freelist, this`free, this`owner, this`spaces
      ensures ok ==> Grown(old(mem), old(owner), old(spaces), q, 0, Pages(sz), Copies(old(mem), old(spaces)[r].leaf, Pages(sz)), 0)
      ensures !ok ==> Restored(old(mem), old(owner), old(spaces), q) && |old(free)| < 3 * Pages(sz)
    {
      ghost var want := Copies(mem, spaces[r].leaf, Pages(sz));
      GrownNone(q, 0, want);
      forall i | 0 <= i < Pages(sz) ensures CopyReady(mem, owner, spaces, r, q, i, want) {
        ReadyAt(mem, free, owner, spaces, r, q, i, Pages(sz));
      }
      ok := CopyTo(r, q, Pages(sz), mem, owner, spaces, want);
    }

    /** The loop of `uvmcopy`, in pages. */
    method CopyTo(r: nat, q: nat, n: nat, ghost m0: map<nat, Page>, ghost o0: map<nat, Owner>, ghost s0: map<nat, Space>,
                  ghost want: map<nat, Want>) returns (ok: bool)
      requires AllReady(m0, o0, s0, r, q, n, want) && Grown(m0, o0, s0, q, 0, 0, want, 0)
      modifies this`mem, this`freelist, this`free, this`owner, this`spaces
      ensures ok ==> Grown(m0, o0, s0, q, 0, n, want, 0)
      ensures !ok ==> Restored(m0, o0, s0, q) && |old(free)| < 3 * n
    {
      var i := 0;
      while i < n
        invariant 0 <= i <= n && |old(free)| <= |free| + 3 * i
        invariant Grown(m0, o0, s0, q, 0, i, want, 0)
      {
        ok := CopyStep(r, q, i, n, m0, o0, s0, want);
        if !ok {
          return;
        }
        i := i + 1;
      }
      return true;
    }

    /** One turn of the loop in `uvmcopy`; on failure everything copied so far is dropped. */
    method CopyStep(r: nat, q: nat, i: nat, ghost n: nat, ghost m0: map<nat, Page>, ghost o0: map<nat, Owner>, ghost s0: map<nat, Space>,
                    ghost want: map<nat, Want>) returns (ok: bool)
      requires Grown(m0, o0, s0, q, 0, i, want, 0) && AllReady(m0, o0, s0, r, q, n, want) && i < n
      modifies this`mem, this`freelist, this`free, this`owner, this`spaces
      ensures ok ==> Grown(m0, o0, s0, q, 0, i + 1, want, 0) && |old(free)| <= |free| + 3
      ensures !ok ==> Restored(m0, o0, s0, q) && |old(free)| <= 2
    {
      assert CopyReady(m0, o0, s0, r, q, i, want);
      ok := CopyPage(r, q, i, m0, o0, s0, want);
      if !ok {
        forall w: nat | InRange(w, 0, i) ensures w !in s0[q].leaf {
          assert CopyReady(m0, o0, s0, r, q, w, want);
        }
        Unwind(q, i, m0, o0, s0, want);
      }
    }

    method CopyPage(r: nat, q: nat, i: nat, ghost m0: map<nat, Page>, ghost o0: map<nat, Owner>, ghost s0: map<nat, Space>,
                    ghost want: map<nat, Want>) returns (ok: bool)
      requires Grown(m0, o0, s0, q, 0, i, want, 0) && CopyReady(m0, o0, s0, r, q, i, want)
      modifies this`mem, this`freelist, this`free, this`owner, this`spaces
      ensures ok ==> Grown(m0, o0, s0, q, 0, i + 1, want, 0) && |old(free)| <= |free| + 3
      ensures !ok ==> Grown(m0, o0, s0, q, 0, i, want, 0) && |old(free)| <= 2
    {
      var pa, flags := ReadLeaf(r, i);
      assert mem[pa] == m0[pa];
      ok := PlacePage(q, i, mem[pa], flags, m0, o0, s0, 0, i, want);
    }

    /** `walk` without `alloc`, and the two halves of the entry it finds. */
    method ReadLeaf(r: nat, v: nat) returns (ppn: nat, flags: nat)
      requires Valid() && r in spaces && v in spaces[r].leaf
      modifies this`mem, this`freelist, this`free, this`owner, this`spaces
      ensures mem == old(mem) && freelist == old(freelist) && free == old(free) && owner == old(owner) && spaces == old(spaces)
      ensures Leaf(ppn, flags) == spaces[r].leaf[v]
    {
      FindLeaf(r, v);
      var found, t := Walk(r, v, false);
      return PpnOf(mem[t][Px(v, 0)]), FlagsOf(mem[t][Px(v, 0)]);
    }

    /** `uvmcreate`: an empty address space, or 0. */
    method UvmCreate() returns (r: nat)
      requires Valid()
      modifies this`mem, this`freelist, this`free, this`owner, this`spaces
      ensures Valid() && owner.Keys == old(owner).Keys
      ensures r == 0 ==> spaces == old(spaces) && owner == old(owner) && free == old(free) == []
      ensures |old(free)| <= |free| + 1
      ensures r != 0 ==> r !in old(spaces) && spaces == old(spaces)[r := Space(map[Root := r], map[])]
      ensures r != 0 ==> r in old(owner) && old(owner)[r] == Free && owner == old(owner)[r := Table(r, Root)]
      ensures forall p :: p in old(owner) && !old(owner)[p].Free? ==> mem[p] == old(mem)[p]
    {
      r := Take();
      if r != 0 {
        Zero(r);
        NewSpaceOk(mem, free, owner, spaces, r);
        owner := owner[r := Table(r, Root)];
        spaces := spaces[r := Space(map[Root := r], map[])];
      }
    }

    /** `freewalk`: frees the page p of node n and all pages below it, each once, and touches
        no other page. */
    method FreeWalk(p: nat, ghost n: Node, ghost t: map<Node, nat>)
      requires Valid() && Subtree(mem, owner, t, n) && p == t[n]
      modifies this`mem, this`freelist, this`free, this`owner
      ensures Valid() && Dismantled(old(mem), old(owner), mem, owner, t.Values)
      decreases n.level
    {
      ghost var m0, o0 := mem, owner;
      assert TreeNode(o0, t, n, n);
      assert Branches(t, n, 0) == {};
      var i := 0;
      while i < 512
        invariant 0 <= i <= 512
        invariant Valid() && Partly(m0, o0, mem, owner, p, Branches(t, n, i), i)
      {
        FreeEntry(p, n, t, i, m0, o0);
        i := i + 1;
      }
      AllBranches(o0, t, n);
      Release(p);
    }

    /** One turn of the loop in `freewalk`. */
    method FreeEntry(p: nat, ghost n: Node, ghost t: map<Node, nat>, i: nat, ghost m0: map<nat, Page>, ghost o0: map<nat, Owner>)
      requires Valid() && Subtree(m0, o0, t, n) && p == t[n] && i < 512
      requires Partly(m0, o0, mem, owner, p, Branches(t, n, i), i)
      modifies this`mem, this`freelist, this`free, this`owner
      ensures Valid() && Partly(m0, o0, mem, owner, p, Branches(t, n, i + 1), i + 1)
      decreases n.level, 0
    {
      EntryAt(m0, o0, t, n, i);
      NextBranch(o0, t, n, i);
      var pte := mem[p][i];
      assert pte / 2 % 8 == 0; // so the panic "freewalk: leaf" is never reached
      if pte % 2 == 1 && pte / 2 % 8 == 0 {
        ghost var c := Child(n, i);
        SubtreeOf(m0, o0, mem, owner, t, n, i);
        ghost var m1, o1 := mem, owner;
        FreeWalk(PpnOf(pte), c, Below(t, c));
        BranchDone(m0, o0, m1, o1, mem, owner, p, Branches(t, n, i), Below(t, c).Values, i);
        assert TreeNode(o0, t, n, n);
        ClearEntry(p, i);
      }
    }

    method ClearEntry(p: nat, i: nat)
      requires Valid() && p in owner && owner[p] == Loose && i < 512
      modifies this`mem
      ensures Valid() && mem == old(mem)[p := old(mem)[p][i := 0]]
    {
      assert OwnerOk(free, owner, spaces, p);
      StoreOk(mem, free, owner, spaces, p, mem[p][i := 0]);
      ListFrame(mem, freelist, free, p, mem[p][i := 0]);
      mem := mem[p := mem[p][i := 0]];
    }

    /** `uvmfree`: every page of the address space, table or user page, goes to the free list
        once; no other page changes hands or content. */
    method UvmFree(r: nat, sz: nat)
      requires Valid() && r in spaces && Pages(sz) <= TRAPFRAME
      requires forall w: nat {:trigger InRange(w, 0, Pages(sz))} :: w in spaces[r].leaf <==> InRange(w, 0, Pages(sz))
      modifies this`mem, this`freelist, this`free, this`owner, this`spaces
      ensures Valid() && Reclaimed(old(mem), old(owner), mem, owner, r) && spaces == old(spaces) - {r}
    {
      ghost var m0, o0, s0 := mem, owner, spaces;
      SpaceUsers(mem, free, owner, spaces, r, Pages(sz));
      if sz > 0 {
        forall w | 0 <= w < Pages(sz) ensures w in spaces[r].leaf {
          assert InRange(w, 0, Pages(sz));
        }
        UvmUnmap(r, 0, Pages(sz), true);
      }
      assert spaces[r].leaf == map[] && spaces - {r} == s0 - {r};
      FreeTables(r, m0, o0, Pages(sz));
    }

    /** The call `freewalk(pagetable)`. */
    method FreeTables(r: nat, ghost m0: map<nat, Page>, ghost o0: map<nat, Owner>, ghost n: nat)
      requires Valid() && r in spaces && spaces[r].leaf == map[] && m0.Keys == o0.Keys == owner.Keys
      requires forall p {:trigger o0[p]} :: p in o0 && o0[p].User? && o0[p].root == r ==> InRange(o0[p].vpn, 0, n)
      requires forall p {:trigger owner[p]} :: p in o0 ==> owner[p] == Detached(o0[p], r, 0, n, Free)
      requires forall p {:trigger mem[p]} :: p in o0 && (o0[p].Loose? || o0[p].User?) && owner[p] == o0[p] ==> mem[p] == m0[p]
      modifies this`mem, this`freelist, this`free, this`owner, this`spaces
      ensures Valid() && Reclaimed(m0, o0, mem, owner, r) && spaces == old(spaces) - {r}
    {
      ghost var m1, o1, t := mem, owner, spaces[r].nodes;
      DropSpaceOk(mem, free, owner, spaces, r);
      TablesOf(mem, free, owner, spaces, r);
      owner := Orphaned(owner, r);
      spaces := spaces - {r};
      FreeWalk(r, Root, t);
      ReclaimedBy(m0, o0, m1, o1, mem, owner, r, n, t.Values);
    }

    // ---- kernel/proc.c ----

    /** A call `mappages(pagetable, va, PGSIZE, pa, perm)` for a page the space will not own. */
    method MapOther(r: nat, v: nat, ppn: nat, perm: nat) returns (ok: bool)
      requires Valid() && r in spaces
      requires TRAPFRAME <= v < MAXVPN && v !in spaces[r].leaf && LeafOk(Leaf(ppn, WithV(perm)))
      modifies this`mem, this`freelist, this`free, this`owner, this`spaces
      ensures Valid() && Keeps(old(mem), old(owner), old(spaces), mem, owner, spaces, r, {}) && NoLeak(old(owner), owner, 0)
      ensures spaces[r].leaf == if ok then old(spaces)[r].leaf[v := Leaf(ppn, WithV(perm))] else old(spaces)[r].leaf
      ensures |old(free)| <= |free| + 2 && (!ok ==> |old(free)| <= 1)
    {
      ghost var leaf := spaces[r].leaf;
      assert (v * PGSIZE + PGSIZE - 1) / PGSIZE == v;
      ghost var m;
      ok, m := MapPages(r, v * PGSIZE, PGSIZE, ppn, perm);
      OnePage(leaf, v, m, ppn, WithV(perm));
    }

    /** A run of at most one page above the user's part. */
    lemma OnePage(leaf: map<nat, Leaf>, v: nat, m: nat, ppn: nat, flags: nat)
      requires TRAPFRAME <= v && m <= 1
      ensures Taken(v, m, ppn) == {}
      ensures MapRange(leaf, v, m, ppn, flags) == if m == 1 then leaf[v := Leaf(ppn, flags)] else leaf
    {
      MapRangeGrows(leaf, v, 0, ppn, flags, v, ppn);
      TakenGrows(v, 0, ppn, ppn);
    }

    method MapShared(r: nat, v: nat, ppn: nat, perm: nat, ghost m0: map<nat, Page>, ghost o0: map<nat, Owner>, ghost s0: map<nat, Space>)
      returns (ok: bool)
      requires Valid() && Begun(m0, o0, s0, mem, owner, spaces, r)
      requires TRAPFRAME <= v < MAXVPN && v !in spaces[r].leaf && LeafOk(Leaf(ppn, WithV(perm)))
      modifies this`mem, this`freelist, this`free, this`owner, this`spaces
      ensures Valid() && Begun(m0, o0, s0, mem, owner, spaces, r)
      ensures spaces[r].leaf == if ok then old(spaces)[r].leaf[v := Leaf(ppn, WithV(perm))] else old(spaces)[r].leaf
      ensures |old(free)| <= |free| + 2 && (!ok ==> |old(free)| <= 1)
    {
      ok := MapOther(r, v, ppn, perm);
      BegunKeeps(m0, o0, s0, old(mem), old(owner), old(spaces), mem, owner, spaces, r);
    }

    /** `proc_pagetable`: an address space holding the trampoline and the trapframe only, or 0
        with every page back where it was. */
    method ProcPagetable(trapframe: nat, trampoline: nat) returns (r: nat)
      requires Valid()
      modifies this`mem, this`freelist, this`free, this`owner, this`spaces
      ensures Valid()
      ensures r == 0 ==> owner == old(owner) && spaces == old(spaces) && SameContents(old(mem), old(owner), mem, owner)
      ensures r != 0 ==> Begun(old(mem), old(owner), old(spaces), mem, owner, spaces, r)
      ensures r != 0 ==> spaces[r].leaf == map[TRAMPOLINE := Leaf(trampoline, PTE_R + PTE_X + PTE_V),
                                               TRAPFRAME := Leaf(trapframe, PTE_R + PTE_W + PTE_V)]
      ensures r == 0 ==> |old(free)| < 5
    {
      ghost var m0, f0, o0, s0 := mem, free, owner, spaces;
      r := CreateSpace();
      if r == 0 {
        return;
      }
      var ok := MapShared(r, TRAMPOLINE, trampoline, PTE_R + PTE_X, m0, o0, s0);
      if !ok {
        Abandon(r, m0, f0, o0, s0);
        return 0;
      }
      ok := MapShared(r, TRAPFRAME, trapframe, PTE_R + PTE_W, m0, o0, s0);
      if !ok {
        DropShared(r, TRAMPOLINE, m0, o0, s0);
        Abandon(r, m0, f0, o0, s0);
        return 0;
      }
    }

    /** The call of `uvmcreate`. */
    method CreateSpace() returns (r: nat)
      requires Valid()
      modifies this`mem, this`freelist, this`free, this`owner, this`spaces
      ensures Valid()
      ensures r == 0 ==> owner == old(owner) && spaces == old(spaces) && SameContents(old(mem), old(owner), mem, owner)
      ensures r != 0 ==> Begun(old(mem), old(owner), old(spaces), mem, owner, spaces, r) && spaces[r].leaf == map[]
      ensures |old(free)| <= |free| + 1 && (r == 0 ==> old(free) == [])
    {
      r := UvmCreate();
      assert r != 0 ==> spaces - {r} == old(spaces);
    }

    /** A call `uvmunmap(pagetable, va, 1, 0)` for a page the space does not own. */
    method DropShared(r: nat, v: nat, ghost m0: map<nat, Page>, ghost o0: map<nat, Owner>, ghost s0: map<nat, Space>)
      requires Valid() && r in spaces && v in spaces[r].leaf && TRAPFRAME <= v
      modifies this`mem, this`freelist, this`free, this`owner, this`spaces
      ensures Valid() && owner == old(owner) && SameContents(old(mem), old(owner), mem, owner)
      ensures spaces == old(spaces)[r := old(spaces)[r].(leaf := old(spaces)[r].leaf - {v})]
      ensures Begun(m0, o0, s0, old(mem), old(owner), old(spaces), r) ==> Begun(m0, o0, s0, mem, owner, spaces, r)
    {
      ghost var o1, leaf := owner, spaces[r].leaf;
      UserPages(mem, free, owner, spaces, r, v);
      UvmUnmap(r, v, 1, false);
      WithoutGrows(leaf, v, 0, v);
      forall p | p in o1 ensures owner[p] == o1[p] {
        assert owner[p] == Detached(o1[p], r, v, 1, Loose);
      }
      assert owner == o1;
      assert old(spaces) - {r} == spaces - {r};
    }

    /** `uvmfree(pagetable, 0)` in the error paths. */
    method Abandon(r: nat, ghost m0: map<nat, Page>, ghost f0: seq<nat>, ghost o0: map<nat, Owner>, ghost s0: map<nat, Space>)
      requires Valid() && Ok(m0, f0, o0, s0) && Begun(m0, o0, s0, mem, owner, spaces, r) && spaces[r].leaf == map[]
      modifies this`mem, this`freelist, this`free, this`owner, this`spaces
      ensures Valid() && owner == o0 && spaces == s0 && SameContents(m0, o0, mem, owner)
    {
      ghost var m1, f1, o1, s1 := mem, free, owner, spaces;
      UvmFree(r, 0);
      forall p | p in o0 ensures owner[p] == o0[p] {
        BegunOwner(m0, f0, o0, s0, m1, f1, o1, s1, r, p);
      }
      assert owner == o0;
      assert spaces == s0;
    }

    /** `proc_freepagetable`: every page of the address space goes to the free list; the
        trampoline and the trapframe page, mapped but owned elsewhere, do not. */
    method ProcFreePagetable(r: nat, sz: nat)
      requires Valid() && r in spaces && Pages(sz) <= TRAPFRAME
      requires forall w: nat {:trigger InRange(w, 0, Pages(sz))} ::
        w in spaces[r].leaf <==> InRange(w, 0, Pages(sz)) || w == TRAMPOLINE || w == TRAPFRAME
      modifies this`mem, this`freelist, this`free, this`owner, this`spaces
      ensures Valid() && Reclaimed(old(mem), old(owner), mem, owner, r) && spaces == old(spaces) - {r}
    {
      ghost var s0 := spaces;
      assert InRange(TRAMPOLINE, 0, Pages(sz)) || TRAMPOLINE in spaces[r].leaf;
      assert InRange(TRAPFRAME, 0, Pages(sz)) || TRAPFRAME in spaces[r].leaf;
      DropShared(r, TRAMPOLINE, mem, owner, spaces);
      DropShared(r, TRAPFRAME, mem, owner, spaces);
      assert forall w: nat {:trigger InRange(w, 0, Pages(sz))} :: w in spaces[r].leaf <==> InRange(w, 0, Pages(sz));
      UvmFree(r, sz);
      assert spaces == s0 - {r};
    }

    method TakeFresh(ghost r: nat, ghost m0: map<nat, Page>, ghost o0: map<nat, Owner>, ghost s0: map<nat, Space>,
                     ghost v: nat, ghost m: nat, ghost want: map<nat, Want>) returns (p: nat)
      requires Grown(m0, o0, s0, r, v, m, want, 0)
      modifies this`mem, this`freelist, this`free, this`owner
      ensures Grown(m0, o0, s0, r, v, m, want, p)
      ensures p != 0 ==> p in owner && owner[p] == Loose && p in o0 && o0[p].Free?
      ensures |old(free)| <= |free| + 1 && (p == 0 ==> old(free) == [])
    {
      ghost var m1, o1 := mem, owner;
      p := Take();
      ExtendsSame(m1, o1, spaces[r], mem, owner, spaces[r], o0, s0[r], r, v, m, want);
    }

    method StoreFresh(ghost r: nat, p: nat, page: Page, ghost m0: map<nat, Page>, ghost o0: map<nat, Owner>, ghost s0: map<nat, Space>,
                      ghost v: nat, ghost m: nat, ghost want: map<nat, Want>)
      requires Grown(m0, o0, s0, r, v, m, want, p) && p in owner && owner[p] == Loose && p in o0 && o0[p].Free?
      modifies this`mem
      ensures Grown(m0, o0, s0, r, v, m, want, p) && mem == old(mem)[p := page]
    {
      assert OwnerOk(free, owner, spaces, p);
      ghost var m1 := mem;
      StoreOk(mem, free, owner, spaces, p, page);
      ListFrame(mem, freelist, free, p, page);
      mem := mem[p := page];
      ExtendsSame(m1, owner, spaces[r], mem, owner, spaces[r], o0, s0[r], r, v, m, want);
    }
  }

  /** The pages that an address space maps below n. */
  function Copies(mem: map<nat, Page>, leaf: map<nat, Leaf>, n: nat): map<nat, Want> {
    map w | w in leaf && InRange(w, 0, n) && leaf[w].ppn in mem :: Want(leaf[w].flags, mem[leaf[w].ppn])
  }

  // ---- page tables being taken apart ----

  function Parent(n: Node): Node {
    Node(n.level + 1, n.prefix / 512)
  }

  /** m is n or lies below it. */
  predicate Under(m: Node, n: Node)
    decreases n.level - m.level
  {
    m == n || (m.level < n.level && Under(Parent(m), n))
  }

  /** The index in n's page of the branch that m lies on. */
  function Branch(m: Node, n: Node): nat
    requires Under(m, n) && m != n
    decreases n.level - m.level
  {
    if Parent(m) == n then m.prefix % 512 else Branch(Parent(m), n)
  }

  function Below(t: map<Node, nat>, c: Node): map<Node, nat> {
    map m | m in t && Under(m, c) :: t[m]
  }

  predicate TreeEntry(mem: map<nat, Page>, t: map<Node, nat>, m: Node, i: nat)
    requires m in t && i < 512
  {
    t[m] in mem && mem[t[m]][i] == if m.level > 0 && Child(m, i) in t then Pte(t[Child(m, i)], PTE_V) else 0
  }

  predicate TreeNode(owner: map<nat, Owner>, t: map<Node, nat>, n: Node, m: Node)
    requires m in t
  {
    && Under(m, n) && (m != n ==> Parent(m) in t)
    && t[m] in owner && owner[t[m]] == Loose
  }

  /** t are the page-table pages of the subtree at n; it has no leaf entries, and its pages
      have no other owner any more. */
  ghost predicate Subtree(mem: map<nat, Page>, owner: map<nat, Owner>, t: map<Node, nat>, n: Node) {
    && n in t
    && (forall m {:trigger TreeNode(owner, t, n, m)} :: m in t ==> TreeNode(owner, t, n, m))
    && (forall m, m' :: m in t && m' in t && m != m' ==> t[m] != t[m'])
    && (forall m, i {:trigger TreeEntry(mem, t, m, i)} :: m in t && 0 <= i < 512 ==> TreeEntry(mem, t, m, i))
  }

  /** Exactly the pages of `gone` went to the free list; no other page changed. */
  ghost predicate Dismantled(m0: map<nat, Page>, o0: map<nat, Owner>, mem: map<nat, Page>, owner: map<nat, Owner>, gone: set<nat>) {
    && owner.Keys == o0.Keys && m0.Keys == o0.Keys && mem.Keys == owner.Keys
    && (forall p {:trigger owner[p]} :: p in o0 ==> owner[p] == if p in gone then Free else o0[p])
    && (forall p {:trigger mem[p]} :: p in o0 && p !in gone ==> mem[p] == m0[p])
  }

  function Branches(t: map<Node, nat>, n: Node, i: nat): set<nat> {
    set m | m in t && m != n && Under(m, n) && Branch(m, n) < i :: t[m]
  }

  /** The pages of `gone` are free; of the rest, only entries of p below i have changed. */
  ghost predicate Partly(m0: map<nat, Page>, o0: map<nat, Owner>, mem: map<nat, Page>, owner: map<nat, Owner>,
                         p: nat, gone: set<nat>, i: nat)
  {
    && owner.Keys == o0.Keys && m0.Keys == o0.Keys && mem.Keys == owner.Keys && p in o0 && p !in gone
    && (forall q {:trigger owner[q]} :: q in o0 ==> owner[q] == if q in gone then Free else o0[q])
    && (forall q {:trigger mem[q]} :: q in o0 && q !in gone && q != p ==> mem[q] == m0[q])
    && (forall j :: i <= j < 512 ==> mem[p][j] == m0[p][j])
  }

  lemma {:induction false} BranchTop(owner: map<nat, Owner>, t: map<Node, nat>, n: Node, m: Node)
    requires forall x {:trigger TreeNode(owner, t, n, x)} :: x in t ==> TreeNode(owner, t, n, x)
    requires m in t && m != n
    ensures Under(m, n) && 0 < n.level && Branch(m, n) < 512
    ensures Child(n, Branch(m, n)) in t && Under(m, Child(n, Branch(m, n)))
    decreases n.level - m.level
  {
    assert TreeNode(owner, t, n, m);
    if Parent(m) == n {
      assert Child(n, m.prefix % 512) == m;
    } else {
      BranchTop(owner, t, n, Parent(m));
      var c := Child(n, Branch(m, n));
      UnderLevel(Parent(m), c);
      assert Under(m, c);
    }
  }

  lemma {:induction false} UnderLevel(m: Node, c: Node)
    requires Under(m, c)
    ensures m.level <= c.level
  {
  }

  lemma {:induction false} UnderChild(m: Node, n: Node, i: nat)
    requires 0 < n.level && i < 512 && Under(m, Child(n, i))
    ensures m != n && Under(m, n) && Branch(m, n) == i
    decreases n.level - m.level
  {
    UnderLevel(m, Child(n, i));
    if m == Child(n, i) {
      assert Parent(m) == n && m.prefix % 512 == i;
      assert Under(Parent(m), n);
    } else {
      UnderChild(Parent(m), n, i);
    }
  }

  lemma AllBranches(owner: map<nat, Owner>, t: map<Node, nat>, n: Node)
    requires n in t && forall x {:trigger TreeNode(owner, t, n, x)} :: x in t ==> TreeNode(owner, t, n, x)
    ensures Branches(t, n, 512) + {t[n]} == t.Values
  {
    forall p | p in t.Values && p != t[n] ensures p in Branches(t, n, 512) {
      var m :| m in t && t[m] == p;
      BranchTop(owner, t, n, m);
    }
  }

  lemma NextBranch(owner: map<nat, Owner>, t: map<Node, nat>, n: Node, i: nat)
    requires n in t && forall x {:trigger TreeNode(owner, t, n, x)} :: x in t ==> TreeNode(owner, t, n, x)
    requires i < 512
    ensures 0 < n.level && Child(n, i) in t ==> Branches(t, n, i + 1) == Branches(t, n, i) + Below(t, Child(n, i)).Values
    ensures !(0 < n.level && Child(n, i) in t) ==> Branches(t, n, i + 1) == Branches(t, n, i)
  {
    forall p | p in Branches(t, n, i + 1) && p !in Branches(t, n, i)
      ensures 0 < n.level && Child(n, i) in t && p in Below(t, Child(n, i)).Values
    {
      var m :| m in t && m != n && Under(m, n) && Branch(m, n) < i + 1 && t[m] == p;
      BranchTop(owner, t, n, m);
      assert m in Below(t, Child(n, i));
    }
    if 0 < n.level && Child(n, i) in t {
      forall p | p in Below(t, Child(n, i)).Values ensures p in Branches(t, n, i + 1) {
        var m :| m in Below(t, Child(n, i)) && t[m] == p;
        UnderChild(m, n, i);
      }
    }
  }

  lemma DirPte(p: nat)
    ensures Pte(p, PTE_V) % 2 == 1 && Pte(p, PTE_V) / 2 % 8 == 0 && PpnOf(Pte(p, PTE_V)) == p
  {
    assert Pte(p, PTE_V) / 2 == 8 * (64 * p);
  }

  lemma EntryAt(m0: map<nat, Page>, o0: map<nat, Owner>, t: map<Node, nat>, n: Node, i: nat)
    requires Subtree(m0, o0, t, n) && i < 512
    ensures t[n] in m0
    ensures m0[t[n]][i] % 2 == 1 <==> 0 < n.level && Child(n, i) in t
    ensures m0[t[n]][i] / 2 % 8 == 0
    ensures 0 < n.level && Child(n, i) in t ==> PpnOf(m0[t[n]][i]) == t[Child(n, i)]
  {
    assert TreeEntry(m0, t, n, i);
    if 0 < n.level && Child(n, i) in t {
      DirPte(t[Child(n, i)]);
    }
  }

  /** Pages of different nodes differ, so the branches before do not hold this one's pages. */
  lemma BranchPages(m0: map<nat, Page>, o0: map<nat, Owner>, t: map<Node, nat>, n: Node, i: nat, m: Node)
    requires Subtree(m0, o0, t, n) && 0 < n.level && i < 512 && m in t && Under(m, Child(n, i))
    ensures t[m] !in Branches(t, n, i) && t[m] != t[n]
  {
    UnderChild(m, n, i);
  }

  lemma BranchNode(m0: map<nat, Page>, o0: map<nat, Owner>, mem: map<nat, Page>, owner: map<nat, Owner>, t: map<Node, nat>, n: Node, i: nat, m: Node)
    requires Subtree(m0, o0, t, n) && 0 < n.level && i < 512 && m in t && Under(m, Child(n, i))
    requires Partly(m0, o0, mem, owner, t[n], Branches(t, n, i), i)
    ensures m in Below(t, Child(n, i)) && TreeNode(owner, Below(t, Child(n, i)), Child(n, i), m)
  {
    assert TreeNode(o0, t, n, m);
    BranchPages(m0, o0, t, n, i, m);
  }

  lemma BranchEntry(m0: map<nat, Page>, o0: map<nat, Owner>, mem: map<nat, Page>, owner: map<nat, Owner>, t: map<Node, nat>, n: Node, i: nat, m: Node, j: nat)
    requires Subtree(m0, o0, t, n) && 0 < n.level && i < 512 && m in t && Under(m, Child(n, i)) && j < 512
    requires Partly(m0, o0, mem, owner, t[n], Branches(t, n, i), i)
    ensures m in Below(t, Child(n, i)) && TreeEntry(mem, Below(t, Child(n, i)), m, j)
  {
    assert TreeEntry(m0, t, m, j) && TreeNode(o0, t, n, m);
    BranchPages(m0, o0, t, n, i, m);
    if m.level > 0 {
      UnderLevel(m, Child(n, i));
      assert Parent(Child(m, j)) == m;
      assert Under(Child(m, j), Child(n, i));
    }
  }

  lemma SubtreeOf(m0: map<nat, Page>, o0: map<nat, Owner>, mem: map<nat, Page>, owner: map<nat, Owner>, t: map<Node, nat>, n: Node, i: nat)
    requires Subtree(m0, o0, t, n) && 0 < n.level && i < 512 && Child(n, i) in t
    requires Partly(m0, o0, mem, owner, t[n], Branches(t, n, i), i)
    ensures Subtree(mem, owner, Below(t, Child(n, i)), Child(n, i))
    ensures t[n] !in Below(t, Child(n, i)).Values
  {
    var c := Child(n, i);
    var u := Below(t, c);
    assert Under(c, c);
    forall m | m in u ensures TreeNode(owner, u, c, m) && t[m] != t[n] {
      BranchNode(m0, o0, mem, owner, t, n, i, m);
      BranchPages(m0, o0, t, n, i, m);
    }
    forall m, j | m in u && 0 <= j < 512 ensures TreeEntry(mem, u, m, j) {
      BranchEntry(m0, o0, mem, owner, t, n, i, m, j);
    }
  }

  lemma BranchDone(m0: map<nat, Page>, o0: map<nat, Owner>, m1: map<nat, Page>, o1: map<nat, Owner>,
                   m2: map<nat, Page>, o2: map<nat, Owner>, p: nat, gone: set<nat>, more: set<nat>, i: nat)
    requires Partly(m0, o0, m1, o1, p, gone, i) && i < 512
    requires Dismantled(m1, o1, m2, o2, more) && p !in more
    ensures o2[p] == o0[p] && Partly(m0, o0, m2[p := m2[p][i := 0]], o2, p, gone + more, i + 1)
  {
  }

  /** The page tables of r belong to nobody any more. */
  function Orphaned(owner: map<nat, Owner>, r: nat): map<nat, Owner> {
    map p | p in owner :: if owner[p].Table? && owner[p].root == r then Loose else owner[p]
  }

  /** Every page of space r is free, and nothing else changed. */
  ghost predicate Reclaimed(m0: map<nat, Page>, o0: map<nat, Owner>, mem: map<nat, Page>, owner: map<nat, Owner>, r: nat) {
    && owner.Keys == o0.Keys && mem.Keys == m0.Keys == o0.Keys
    && (forall p {:trigger owner[p]} :: p in o0 ==>
          owner[p] == if (o0[p].Table? || o0[p].User?) && o0[p].root == r then Free else o0[p])
    && (forall p {:trigger mem[p]} :: p in o0 && owner[p] == o0[p] && (o0[p].Loose? || o0[p].User?) ==> mem[p] == m0[p])
  }

  lemma DropSpaceOk(mem: map<nat, Page>, free: seq<nat>, owner: map<nat, Owner>, spaces: map<nat, Space>, r: nat)
    requires Ok(mem, free, owner, spaces) && r in spaces && spaces[r].leaf == map[]
    ensures Ok(mem, free, Orphaned(owner, r), spaces - {r})
    ensures Subtree(mem, Orphaned(owner, r), spaces[r].nodes, Root) && spaces[r].nodes[Root] == r
  {
    var owner', spaces', t := Orphaned(owner, r), spaces - {r}, spaces[r].nodes;
    assert SpaceOk(mem, owner, r, spaces[r]);
    forall p | p in owner' ensures OwnerOk(free, owner', spaces', p) {
      assert OwnerOk(free, owner, spaces, p);
    }
    forall s | s in spaces' ensures SpaceOk(mem, owner', s, spaces'[s]) {
      assert SpaceOk(mem, owner, s, spaces[s]);
      SpaceFrame(mem, owner, mem, owner', s, spaces[s]);
    }
    DropTree(mem, owner, r, spaces[r]);
  }

  lemma DropTree(mem: map<nat, Page>, owner: map<nat, Owner>, r: nat, sp: Space)
    requires SpaceOk(mem, owner, r, sp) && sp.leaf == map[]
    ensures Subtree(mem, Orphaned(owner, r), sp.nodes, Root)
  {
    var owner', t := Orphaned(owner, r), sp.nodes;
    forall m | m in t ensures TreeNode(owner', t, Root, m) {
      assert NodeOk(mem, owner, r, sp, m);
      UnderRoot(mem, owner, r, sp, m);
    }
    forall m, m' | m in t && m' in t && m != m' ensures t[m] != t[m'] {
      assert NodeOk(mem, owner, r, sp, m) && NodeOk(mem, owner, r, sp, m');
    }
    forall m, i | m in t && 0 <= i < 512 ensures TreeEntry(mem, t, m, i) {
      assert NodeOk(mem, owner, r, sp, m);
      if m.level > 0 {
        assert DirEntry(mem, sp, m, i);
      } else {
        assert LeafEntry(mem, sp, m, i);
      }
    }
  }

  lemma {:induction false} UnderRoot(mem: map<nat, Page>, owner: map<nat, Owner>, r: nat, sp: Space, m: Node)
    requires SpaceOk(mem, owner, r, sp) && m in sp.nodes
    ensures Under(m, Root)
    decreases 2 - m.level
  {
    assert NodeOk(mem, owner, r, sp, m);
    if m.level < 2 {
      UnderRoot(mem, owner, r, sp, Parent(m));
    }
  }

  lemma SpaceUsers(mem: map<nat, Page>, free: seq<nat>, owner: map<nat, Owner>, spaces: map<nat, Space>, r: nat, n: nat)
    requires Ok(mem, free, owner, spaces) && r in spaces
    requires forall w: nat {:trigger InRange(w, 0, n)} :: w in spaces[r].leaf <==> InRange(w, 0, n)
    ensures forall p {:trigger owner[p]} :: p in owner && owner[p].User? && owner[p].root == r ==> InRange(owner[p].vpn, 0, n)
    ensures n == 0 ==> spaces[r].leaf == map[]
    ensures n == 0 ==> forall p {:trigger owner[p]} :: p in owner ==> owner[p] == Detached(owner[p], r, 0, n, Free)
  {
    forall p | p in owner && owner[p].User? && owner[p].root == r ensures InRange(owner[p].vpn, 0, n) {
      assert OwnerOk(free, owner, spaces, p);
    }
    assert forall w: nat :: w in spaces[r].leaf ==> InRange(w, 0, n);
    assert n == 0 ==> spaces[r].leaf.Keys == {};
  }

  /** The table pages of r are the ones its nodes name. */
  lemma TablesOf(mem: map<nat, Page>, free: seq<nat>, owner: map<nat, Owner>, spaces: map<nat, Space>, r: nat)
    requires Ok(mem, free, owner, spaces) && r in spaces
    ensures forall p {:trigger owner[p]} :: p in owner ==> (p in spaces[r].nodes.Values <==> owner[p].Table? && owner[p].root == r)
  {
    assert SpaceOk(mem, owner, r, spaces[r]);
    forall p | p in owner && p in spaces[r].nodes.Values ensures owner[p].Table? && owner[p].root == r {
      var n :| n in spaces[r].nodes && spaces[r].nodes[n] == p;
      assert NodeOk(mem, owner, r, spaces[r], n);
    }
    forall p | p in owner && owner[p].Table? && owner[p].root == r ensures p in spaces[r].nodes.Values {
      assert OwnerOk(free, owner, spaces, p);
    }
  }

  lemma ReclaimedBy(m0: map<nat, Page>, o0: map<nat, Owner>, m1: map<nat, Page>, o1: map<nat, Owner>,
                    m2: map<nat, Page>, o2: map<nat, Owner>, r: nat, n: nat, tables: set<nat>)
    requires m0.Keys == o0.Keys == o1.Keys
    requires forall p {:trigger o0[p]} :: p in o0 && o0[p].User? && o0[p].root == r ==> InRange(o0[p].vpn, 0, n)
    requires forall p {:trigger o1[p]} :: p in o0 ==> o1[p] == Detached(o0[p], r, 0, n, Free)
    requires forall p {:trigger m1[p]} :: p in o0 && (o0[p].Loose? || o0[p].User?) && o1[p] == o0[p] ==> p in m1 && m1[p] == m0[p]
    requires forall p {:trigger o1[p]} :: p in o1 ==> (p in tables <==> o1[p].Table? && o1[p].root == r)
    requires Dismantled(m1, Orphaned(o1, r), m2, o2, tables)
    ensures Reclaimed(m0, o0, m2, o2, r)
  {
    forall p | p in o0
      ensures o2[p] == if (o0[p].Table? || o0[p].User?) && o0[p].root == r then Free else o0[p]
      ensures o2[p] == o0[p] && (o0[p].Loose? || o0[p].User?) ==> m2[p] == m0[p]
    {
      assert o1[p] == Detached(o0[p], r, 0, n, Free);
      assert p in tables <==> o1[p].Table? && o1[p].root == r;
      assert Orphaned(o1, r)[p] == if p in tables then Loose else o1[p];
      assert o2[p] == if p in tables then Free else o1[p];
    }
  }

  ghost predicate SameContents(m0: map<nat, Page>, o0: map<nat, Owner>, mem: map<nat, Page>, owner: map<nat, Owner>) {
    && m0.Keys == o0.Keys == mem.Keys == owner.Keys
    && forall p {:trigger mem[p]} :: p in o0 && (o0[p].Loose? || o0[p].User?) ==> mem[p] == m0[p]
  }

  /** Space r is new since (m0, o0, s0); it took free pages only, and no page is in limbo. */
  ghost predicate Begun(m0: map<nat, Page>, o0: map<nat, Owner>, s0: map<nat, Space>,
                        mem: map<nat, Page>, owner: map<nat, Owner>, spaces: map<nat, Space>, r: nat)
  {
    && r !in s0 && r in spaces && spaces - {r} == s0
    && SameContents(m0, o0, mem, owner) && NoLeak(o0, owner, 0)
    && (forall p {:trigger owner[p]} :: p in o0 && !o0[p].Free? ==> owner[p] == o0[p])
  }

  lemma BegunKeeps(m0: map<nat, Page>, o0: map<nat, Owner>, s0: map<nat, Space>,
                   m1: map<nat, Page>, o1: map<nat, Owner>, s1: map<nat, Space>,
                   m2: map<nat, Page>, o2: map<nat, Owner>, s2: map<nat, Space>, r: nat)
    requires Begun(m0, o0, s0, m1, o1, s1, r) && Keeps(m1, o1, s1, m2, o2, s2, r, {}) && NoLeak(o1, o2, 0)
    ensures Begun(m0, o0, s0, m2, o2, s2, r)
  {
    assert s2 - {r} == s1 - {r};
  }

  /** Away from space r nothing was taken. */
  lemma BegunOwner(m0: map<nat, Page>, f0: seq<nat>, o0: map<nat, Owner>, s0: map<nat, Space>,
                   m1: map<nat, Page>, f1: seq<nat>, o1: map<nat, Owner>, s1: map<nat, Space>, r: nat, p: nat)
    requires Ok(m0, f0, o0, s0) && Ok(m1, f1, o1, s1) && Begun(m0, o0, s0, m1, o1, s1, r) && p in o0
    ensures (if (o1[p].Table? || o1[p].User?) && o1[p].root == r then Free else o1[p]) == o0[p]
  {
    assert OwnerOk(f1, o1, s1, p) && OwnerOk(f0, o0, s0, p);
    if (o1[p].Table? || o1[p].User?) && o1[p].root != r {
      var s := o1[p].root;
      assert s1[s] == (s1 - {r})[s] == s0[s] && SpaceOk(m0, o0, s, s0[s]);
      if o1[p].Table? {
        assert NodeOk(m0, o0, s, s0[s], o1[p].node);
      } else {
        assert LeafOwned(o0, s, s0[s], o1[p].vpn);
      }
    }
  }

  /** Page i of space r can be copied to space q. */
  predicate CopyReady(mem: map<nat, Page>, owner: map<nat, Owner>, spaces: map<nat, Space>, r: nat, q: nat, i: nat, want: map<nat, Want>) {
    && r in spaces && q in spaces && r != q && IsUser(i) && i in spaces[r].leaf && i !in spaces[q].leaf
    && LeafOk(spaces[r].leaf[i])
    && var p := spaces[r].leaf[i].ppn;
       && p in owner && owner[p] == User(r, i) && p in mem
       && i in want && want[i] == Want(spaces[r].leaf[i].flags, mem[p])
  }

  ghost predicate AllReady(mem: map<nat, Page>, owner: map<nat, Owner>, spaces: map<nat, Space>, r: nat, q: nat, n: nat, want: map<nat, Want>) {
    forall i {:trigger CopyReady(mem, owner, spaces, r, q, i, want)} :: 0 <= i < n ==> CopyReady(mem, owner, spaces, r, q, i, want)
  }

  lemma ReadyAt(mem: map<nat, Page>, free: seq<nat>, owner: map<nat, Owner>, spaces: map<nat, Space>, r: nat, q: nat, i: nat, n: nat)
    requires Ok(mem, free, owner, spaces) && r in spaces && q in spaces && r != q && i in spaces[r].leaf && i !in spaces[q].leaf
    requires IsUser(i) && i < n
    ensures CopyReady(mem, owner, spaces, r, q, i, Copies(mem, spaces[r].leaf, n))
  {
    assert SpaceOk(mem, owner, r, spaces[r]) && LeafOwned(owner, r, spaces[r], i) && InRange(i, 0, n);
  }

  /** n pages of zeros from v on. */
  function ZeroPages(v: nat, n: nat, flags: nat): (want: map<nat, Want>)
    ensures forall w: nat :: w in want <==> InRange(w, v, n)
    ensures forall w :: w in want ==> want[w] == Want(flags, Zeros())
  {
    if n == 0 then map[] else ZeroPages(v, n - 1, flags)[v + n - 1 := Want(flags, Zeros())]
  }

  /** Leaf w of the space maps a page that was free, with the wanted flags and contents. */
  predicate FreshAt(mem: map<nat, Page>, owner: map<nat, Owner>, sp: Space, o0: map<nat, Owner>, r: nat, want: map<nat, Want>, w: nat) {
    && w in sp.leaf && w in want && sp.leaf[w].flags == want[w].flags
    && var q := sp.leaf[w].ppn;
       q in o0 && o0[q].Free? && q in mem && mem[q] == want[w].page && q in owner && owner[q] == User(r, w)
  }

  ghost predicate Extends(mem: map<nat, Page>, owner: map<nat, Owner>, sp: Space, o0: map<nat, Owner>, sp0: Space,
                          r: nat, v: nat, m: nat, want: map<nat, Want>)
  {
    && sp.leaf.Keys == sp0.leaf.Keys + Range(v, m)
    && (forall w {:trigger sp.leaf[w]} :: w in sp0.leaf ==> sp.leaf[w] == sp0.leaf[w])
    && (forall w: nat {:trigger FreshAt(mem, owner, sp, o0, r, want, w)} :: InRange(w, v, m) ==> FreshAt(mem, owner, sp, o0, r, want, w))
  }

  lemma ExtendsSame(m1: map<nat, Page>, o1: map<nat, Owner>, sp1: Space, m2: map<nat, Page>, o2: map<nat, Owner>, sp2: Space,
                    o0: map<nat, Owner>, sp0: Space, r: nat, v: nat, m: nat, want: map<nat, Want>)
    requires Extends(m1, o1, sp1, o0, sp0, r, v, m, want) && sp2.leaf == sp1.leaf && o1.Keys == m2.Keys == o2.Keys
    requires forall p {:trigger o2[p]} {:trigger m2[p]} :: p in o1 && o1[p].User? ==> o2[p] == o1[p] && p in m1 && m2[p] == m1[p]
    ensures Extends(m2, o2, sp2, o0, sp0, r, v, m, want)
  {
    forall w: nat | InRange(w, v, m) ensures FreshAt(m2, o2, sp2, o0, r, want, w) {
      assert FreshAt(m1, o1, sp1, o0, r, want, w);
    }
  }

  lemma ExtendsGrows(m1: map<nat, Page>, o1: map<nat, Owner>, sp1: Space, m2: map<nat, Page>, o2: map<nat, Owner>, sp2: Space,
                     o0: map<nat, Owner>, sp0: Space, r: nat, v: nat, m: nat, want: map<nat, Want>, w: nat, p: nat)
    requires Extends(m1, o1, sp1, o0, sp0, r, v, m, want) && w == v + m && w !in sp0.leaf && w in want
    requires sp2.leaf == sp1.leaf[w := Leaf(p, want[w].flags)] && o1.Keys == m2.Keys == o2.Keys
    requires forall q {:trigger o2[q]} {:trigger m2[q]} :: q in o1 && o1[q].User? ==> o2[q] == o1[q] && q in m1 && m2[q] == m1[q]
    requires p in o0 && o0[p].Free? && p in m2 && m2[p] == want[w].page && p in o2 && o2[p] == User(r, w)
    ensures Extends(m2, o2, sp2, o0, sp0, r, v, m + 1, want)
  {
    RangeGrows(v, m, w);
    forall x: nat | InRange(x, v, m + 1) ensures FreshAt(m2, o2, sp2, o0, r, want, x) {
      assert x != w ==> InRange(x, v, m) && FreshAt(m1, o1, sp1, o0, r, want, x);
    }
  }

  lemma UnmapOwners(m0: map<nat, Page>, o0: map<nat, Owner>, s0: map<nat, Space>, m1: map<nat, Page>, o1: map<nat, Owner>,
                    m2: map<nat, Page>, o2: map<nat, Owner>, r: nat, v: nat, m: nat, w: nat, to: Owner)
    requires m0.Keys == o0.Keys == m1.Keys == o1.Keys == m2.Keys == o2.Keys && r in s0 && w == v + m && w in s0[r].leaf
    requires !to.User?
    requires forall p {:trigger o1[p]} :: p in o0 ==> o1[p] == Detached(o0[p], r, v, m, to)
    requires forall p {:trigger m1[p]} :: p in o0 && (o0[p].Loose? || o0[p].User?) && o1[p] == o0[p] ==> m1[p] == m0[p]
    requires forall p :: p in o0 && o0[p] == User(r, w) ==> IsUser(w) && s0[r].leaf[w].ppn == p
    requires IsUser(w) ==> s0[r].leaf[w].ppn in o1 && o1[s0[r].leaf[w].ppn] == User(r, w)
    requires o2 == if IsUser(w) then o1[s0[r].leaf[w].ppn := to] else o1
    requires forall p {:trigger m2[p]} :: p in o1 && (o1[p].Loose? || o1[p].User?) && (IsUser(w) ==> p != s0[r].leaf[w].ppn) ==> m2[p] == m1[p]
    ensures forall p {:trigger o2[p]} :: p in o0 ==> o2[p] == Detached(o0[p], r, v, m + 1, to)
    ensures forall p {:trigger m2[p]} :: p in o0 && (o0[p].Loose? || o0[p].User?) && o2[p] == o0[p] ==> m2[p] == m0[p]
  {
    forall p | p in o0 ensures o2[p] == Detached(o0[p], r, v, m + 1, to) {
      assert o1[p] == Detached(o0[p], r, v, m, to);
    }
    forall p | p in o0 && (o0[p].Loose? || o0[p].User?) && o2[p] == o0[p] ensures m2[p] == m0[p] {
      assert o1[p] == Detached(o0[p], r, v, m, to) && o2[p] == Detached(o0[p], r, v, m + 1, to);
      assert m1[p] == m0[p];
    }
  }

  lemma UserPages(mem: map<nat, Page>, free: seq<nat>, owner: map<nat, Owner>, spaces: map<nat, Space>, r: nat, w: nat)
    requires Ok(mem, free, owner, spaces) && r in spaces
    ensures forall p :: p in owner && owner[p] == User(r, w) ==> IsUser(w) && w in spaces[r].leaf && spaces[r].leaf[w].ppn == p
  {
    forall p | p in owner && owner[p] == User(r, w) ensures IsUser(w) && w in spaces[r].leaf && spaces[r].leaf[w].ppn == p {
      assert OwnerOk(free, owner, spaces, p);
    }
  }

  /** Freeing the page and then clearing its entry, in the order of the code. */
  lemma FreeCleared(mem: map<nat, Page>, free: seq<nat>, owner: map<nat, Owner>, spaces: map<nat, Space>, r: nat, v: nat, junk: Page)
    requires Ok(mem, free, owner, spaces) && r in spaces && v in spaces[r].leaf && IsUser(v)
    requires NodeFor(v, 0) in spaces[r].nodes && spaces[r].nodes[NodeFor(v, 0)] in mem
    requires var t := spaces[r].nodes[NodeFor(v, 0)]; t in owner && owner[t].Table?
    requires var pa := spaces[r].leaf[v].ppn; pa in owner && owner[pa] == User(r, v)
    ensures var sp, pa := spaces[r], spaces[r].leaf[v].ppn; var t := sp.nodes[NodeFor(v, 0)];
      Ok(mem[pa := junk][t := mem[t][Px(v, 0) := 0]], [pa] + free, owner[pa := Free], spaces[r := sp.(leaf := sp.leaf - {v})])
  {
    var sp, pa := spaces[r], spaces[r].leaf[v].ppn;
    var t := sp.nodes[NodeFor(v, 0)];
    ClearLeafOk(mem, free, owner, spaces, r, v);
    FreeOk(mem[t := mem[t][Px(v, 0) := 0]], free, owner[pa := Loose], spaces[r := sp.(leaf := sp.leaf - {v})], pa, junk);
    assert mem[t := mem[t][Px(v, 0) := 0]][pa := junk] == mem[pa := junk][t := mem[t][Px(v, 0) := 0]];
    assert owner[pa := Loose][pa := Free] == owner[pa := Free];
  }
}
