/** Sv39 page tables (kernel/vm.c, section 4.4 of the RISC-V Privileged Architecture,
    version 20211203) in raw physical pages, and who owns every page. */
module PageTable {
  import opened Common
  import opened Words

  const PGSIZE := 4096
  const PTE_V := 1
  const PTE_R := 2
  const PTE_W := 4
  const PTE_X := 8
  const PTE_U := 16

  /** 2^26 pages: MAXVA / PGSIZE. */
  const MAXVPN := 0x400_0000
  const TRAMPOLINE := MAXVPN - 1
  const TRAPFRAME := MAXVPN - 2

  type Page = p: seq<nat> | |p| == 512 witness seq(512, i => 0)

  function Zeros(): Page {
    seq(512, i => 0)
  }

  // ---- page table entries ----

  function Pte(ppn: nat, flags: nat): nat {
    ppn * 1024 + flags
  }

  function PpnOf(pte: nat): nat {
    pte / 1024
  }

  function FlagsOf(pte: nat): nat {
    pte % 1024
  }

  /** `perm | PTE_V` */
  function WithV(perm: nat): nat {
    if perm % 2 == 1 then perm else perm + 1
  }

  lemma PteRoundTrip(ppn: nat, flags: nat)
    requires flags < 1024
    ensures PpnOf(Pte(ppn, flags)) == ppn && FlagsOf(Pte(ppn, flags)) == flags
    ensures Pte(ppn, flags) % 2 == flags % 2
  {
  }

  // ---- the same on machine words ----

  /** PA2PTE and PTE2PA */
  function Pa2Pte(pa: nat): nat {
    Shl(Shr(pa, 12), 10)
  }

  function Pte2Pa(pte: nat): nat {
    Shl(Shr(pte, 10), 12)
  }

  lemma Pa2PteIs(pa: nat)
    requires pa % PGSIZE == 0 && pa < 0x100_0000_0000_0000
    ensures Pa2Pte(pa) == pa / PGSIZE * 1024 && pa / PGSIZE < 0x1000_0000_0000
  {
    Shifts(pa);
    Shifts(pa / PGSIZE);
  }

  /** The entry that `mappages` writes for a page-aligned physical address of 56 bits is the one
      of the model. */
  lemma PteIsWord(pa: nat, perm: nat)
    requires pa % PGSIZE == 0 && pa < 0x100_0000_0000_0000 && perm < 1024
    ensures Or(Or(Pa2Pte(pa), perm), PTE_V) == Pte(pa / PGSIZE, WithV(perm)) < WORD
  {
    Pa2PteIs(pa);
    OrFlags(pa / PGSIZE, perm);
    OrOne(pa / PGSIZE * 1024 + perm);
  }

  /** The page, the flags and the valid bit of an entry are those of the model. */
  lemma WordIsPte(pte: nat)
    requires PpnOf(pte) * PGSIZE < WORD
    ensures Pte2Pa(pte) == PpnOf(pte) * PGSIZE && And(pte, 0x3ff) == FlagsOf(pte) && And(pte, PTE_V) == pte % 2
  {
    Shifts(pte);
    Shifts(PpnOf(pte));
    Low10(pte);
    Low1(pte);
  }

  /** So PTE2PA undoes PA2PTE under any flag bits, which PTE_FLAGS gives back. */
  lemma PaRoundTrip(pa: nat, perm: nat)
    requires pa % PGSIZE == 0 && pa < 0x100_0000_0000_0000 && perm < 1024
    ensures var pte := Or(Or(Pa2Pte(pa), perm), PTE_V);
      Pte2Pa(pte) == pa && And(pte, 0x3ff) == WithV(perm) && And(pte, PTE_V) == PTE_V
  {
    PteIsWord(pa, perm);
    PteRoundTrip(pa / PGSIZE, WithV(perm));
    WordIsPte(Pte(pa / PGSIZE, WithV(perm)));
  }

  /** PX(level, va) is the index of the model. */
  lemma PxIsWord(va: nat, level: nat)
    requires va < MAXVPN * PGSIZE && level <= 2
    ensures And(Shr(va, 12 + 9 * level), 0x1ff) == Px(va / PGSIZE, level)
  {
    IndexShifts(va, level);
    Low9(Shr(va, 12 + 9 * level));
  }

  // ---- nodes of the radix tree ----

  /** A page-table page, by its level and the common prefix of the page numbers below it. */
  datatype Node = Node(level: nat, prefix: nat)

  const Root := Node(2, 0)

  function Child(n: Node, i: nat): Node
    requires n.level > 0
  {
    Node(n.level - 1, n.prefix * 512 + i)
  }

  /** The node of a level on the path to page number v. */
  function NodeFor(v: nat, level: nat): Node
    requires level <= 2 && v < MAXVPN
  {
    Node(level, if level == 0 then v / 512 else if level == 1 then v / 512 / 512 else 0)
  }

  /** PX(level, va): the 9-bit index of a level. */
  function Px(v: nat, level: nat): (i: nat)
    requires level <= 2 && v < MAXVPN
    ensures i < 512
  {
    if level == 0 then v % 512 else if level == 1 then v / 512 % 512 else v / 512 / 512 % 512
  }

  lemma PathStep(v: nat, level: nat)
    requires 1 <= level <= 2 && v < MAXVPN
    ensures Child(NodeFor(v, level), Px(v, level)) == NodeFor(v, level - 1)
  {
    if level == 2 {
      assert v / 512 / 512 < 512;
    }
  }

  /** The leaf entries: page number v is at index Px(v, 0) of its last node, and no other is. */
  lemma SlotOf(v: nat, m: Node, j: nat)
    requires v < MAXVPN && m.level == 0 && j < 512
    ensures m.prefix * 512 + j == v <==> m == NodeFor(v, 0) && j == Px(v, 0)
  {
  }

  // ---- ownership ----

  datatype Owner = Free | Loose | Table(root: nat, node: Node) | User(root: nat, vpn: nat)

  datatype Leaf = Leaf(ppn: nat, flags: nat)

  /** One address space: its page-table pages and the map it stands for. */
  datatype Space = Space(nodes: map<Node, nat>, leaf: map<nat, Leaf>)

  /** A leaf below the trapframe owns its physical page; the trampoline and the trapframe
      are mapped but belong to someone else. */
  predicate IsUser(v: nat) {
    v < TRAPFRAME
  }

  predicate LeafOk(l: Leaf) {
    l.flags < 1024 && l.flags % 2 == 1 && l.flags != PTE_V
  }

  predicate DirEntry(mem: map<nat, Page>, sp: Space, n: Node, i: nat)
    requires n in sp.nodes && n.level > 0 && i < 512
  {
    sp.nodes[n] in mem && mem[sp.nodes[n]][i] == if Child(n, i) in sp.nodes then Pte(sp.nodes[Child(n, i)], PTE_V) else 0
  }

  predicate LeafEntry(mem: map<nat, Page>, sp: Space, n: Node, i: nat)
    requires n in sp.nodes && i < 512
  {
    var v := n.prefix * 512 + i;
    sp.nodes[n] in mem && mem[sp.nodes[n]][i] == if v in sp.leaf then Pte(sp.leaf[v].ppn, sp.leaf[v].flags) else 0
  }

  predicate NodeOk(mem: map<nat, Page>, owner: map<nat, Owner>, r: nat, sp: Space, n: Node)
    requires n in sp.nodes
  {
    && n.level <= 2 && (n.level == 2 ==> n == Root)
    && (n.level < 2 ==> Node(n.level + 1, n.prefix / 512) in sp.nodes)
    && sp.nodes[n] in mem && sp.nodes[n] in owner && owner[sp.nodes[n]] == Table(r, n)
  }

  predicate LeafOwned(owner: map<nat, Owner>, r: nat, sp: Space, v: nat)
    requires v in sp.leaf
  {
    && v < MAXVPN && NodeFor(v, 0) in sp.nodes && LeafOk(sp.leaf[v])
    && (IsUser(v) ==> sp.leaf[v].ppn in owner && owner[sp.leaf[v].ppn] == User(r, v))
  }

  /** The pages of an address space encode its map. */
  ghost predicate SpaceOk(mem: map<nat, Page>, owner: map<nat, Owner>, r: nat, sp: Space) {
    && Root in sp.nodes && sp.nodes[Root] == r
    && (forall n {:trigger NodeOk(mem, owner, r, sp, n)} :: n in sp.nodes ==> NodeOk(mem, owner, r, sp, n))
    && (forall n, i {:trigger DirEntry(mem, sp, n, i)} :: n in sp.nodes && n.level > 0 && 0 <= i < 512 ==> DirEntry(mem, sp, n, i))
    && (forall n, i {:trigger LeafEntry(mem, sp, n, i)} :: n in sp.nodes && n.level == 0 && 0 <= i < 512 ==> LeafEntry(mem, sp, n, i))
    && (forall v {:trigger LeafOwned(owner, r, sp, v)} :: v in sp.leaf ==> LeafOwned(owner, r, sp, v))
  }

  /** A recorded owner really has the page. */
  predicate OwnerOk(free: seq<nat>, owner: map<nat, Owner>, spaces: map<nat, Space>, p: nat)
    requires p in owner
  {
    && (owner[p].Free? <==> p in free)
    && (owner[p].Table? ==> owner[p].root in spaces && owner[p].node in spaces[owner[p].root].nodes
                            && spaces[owner[p].root].nodes[owner[p].node] == p)
    && (owner[p].User? ==> owner[p].root in spaces && owner[p].vpn in spaces[owner[p].root].leaf
                           && spaces[owner[p].root].leaf[owner[p].vpn].ppn == p && IsUser(owner[p].vpn))
  }

  /** Every page has exactly one owner: the free list, a local variable of the kernel, one
      node of one page table, or one user page of one address space. */
  ghost predicate Ok(mem: map<nat, Page>, free: seq<nat>, owner: map<nat, Owner>, spaces: map<nat, Space>) {
    && mem.Keys == owner.Keys && 0 !in owner && Distinct(free)
    && (forall p :: p in free ==> p in owner)
    && (forall p {:trigger OwnerOk(free, owner, spaces, p)} :: p in owner ==> OwnerOk(free, owner, spaces, p))
    && (forall r {:trigger SpaceOk(mem, owner, r, spaces[r])} :: r in spaces ==> SpaceOk(mem, owner, r, spaces[r]))
  }

  // ---- primitive changes ----

  /** An address space does not depend on the pages of others. */
  lemma SpaceFrame(mem: map<nat, Page>, owner: map<nat, Owner>, mem': map<nat, Page>, owner': map<nat, Owner>, r: nat, sp: Space)
    requires SpaceOk(mem, owner, r, sp)
    requires forall p :: p in owner && owner[p].Table? && owner[p].root == r ==>
      p in owner' && owner'[p] == owner[p] && p in mem' && p in mem && mem'[p] == mem[p]
    requires forall p :: p in owner && owner[p].User? && owner[p].root == r ==> p in owner' && owner'[p] == owner[p]
    ensures SpaceOk(mem', owner', r, sp)
  {
    forall n | n in sp.nodes ensures NodeOk(mem', owner', r, sp, n) {
      assert NodeOk(mem, owner, r, sp, n);
    }
    forall n, i | n in sp.nodes && n.level > 0 && 0 <= i < 512 ensures DirEntry(mem', sp, n, i) {
      assert NodeOk(mem, owner, r, sp, n) && DirEntry(mem, sp, n, i);
    }
    forall n, i | n in sp.nodes && n.level == 0 && 0 <= i < 512 ensures LeafEntry(mem', sp, n, i) {
      assert NodeOk(mem, owner, r, sp, n) && LeafEntry(mem, sp, n, i);
    }
    forall v | v in sp.leaf ensures LeafOwned(owner', r, sp, v) {
      assert LeafOwned(owner, r, sp, v);
    }
  }

  lemma AllocOk(mem: map<nat, Page>, free: seq<nat>, owner: map<nat, Owner>, spaces: map<nat, Space>, junk: Page)
    requires Ok(mem, free, owner, spaces) && free != []
    ensures var p := free[0]; Ok(mem[p := junk], free[1..], owner[p := Loose], spaces)
  {
    var p := free[0];
    assert p in free && OwnerOk(free, owner, spaces, p);
    var mem', owner' := mem[p := junk], owner[p := Loose];
    forall q | q in owner' ensures OwnerOk(free[1..], owner', spaces, q) {
      assert OwnerOk(free, owner, spaces, q);
    }
    forall r | r in spaces ensures SpaceOk(mem', owner', r, spaces[r]) {
      SpaceFrame(mem, owner, mem', owner', r, spaces[r]);
    }
  }

  lemma FreeOk(mem: map<nat, Page>, free: seq<nat>, owner: map<nat, Owner>, spaces: map<nat, Space>, p: nat, junk: Page)
    requires Ok(mem, free, owner, spaces) && p in owner && owner[p] == Loose
    ensures Ok(mem[p := junk], [p] + free, owner[p := Free], spaces)
  {
    assert OwnerOk(free, owner, spaces, p);
    var mem', owner' := mem[p := junk], owner[p := Free];
    forall q | q in owner' ensures OwnerOk([p] + free, owner', spaces, q) {
      assert OwnerOk(free, owner, spaces, q);
    }
    forall r | r in spaces ensures SpaceOk(mem', owner', r, spaces[r]) {
      SpaceFrame(mem, owner, mem', owner', r, spaces[r]);
    }
  }

  /** The contents of pages that are not page tables do not matter. */
  lemma StoreOk(mem: map<nat, Page>, free: seq<nat>, owner: map<nat, Owner>, spaces: map<nat, Space>, p: nat, page: Page)
    requires Ok(mem, free, owner, spaces) && p in owner && (owner[p].Loose? || owner[p].User?)
    ensures Ok(mem[p := page], free, owner, spaces)
  {
    var mem' := mem[p := page];
    forall r | r in spaces ensures SpaceOk(mem', owner, r, spaces[r]) {
      SpaceFrame(mem, owner, mem', owner, r, spaces[r]);
    }
  }

  /** Hanging a zeroed page below an empty directory entry. */
  lemma AddTableOk(mem: map<nat, Page>, free: seq<nat>, owner: map<nat, Owner>, spaces: map<nat, Space>,
                   r: nat, n: Node, i: nat, p: nat)
    requires Ok(mem, free, owner, spaces) && r in spaces && n in spaces[r].nodes && 0 < n.level && i < 512
    requires Child(n, i) !in spaces[r].nodes && p in owner && owner[p] == Loose && mem[p] == Zeros()
    ensures var sp := spaces[r]; var t := sp.nodes[n]; var c := Child(n, i);
      && t in mem
      && Ok(mem[t := mem[t][i := Pte(p, PTE_V)]], free, owner[p := Table(r, c)], spaces[r := sp.(nodes := sp.nodes[c := p])])
  {
    var sp := spaces[r];
    var t, c := sp.nodes[n], Child(n, i);
    assert NodeOk(mem, owner, r, sp, n) && OwnerOk(free, owner, spaces, p) && OwnerOk(free, owner, spaces, t);
    var mem', owner', sp' := mem[t := mem[t][i := Pte(p, PTE_V)]], owner[p := Table(r, c)], sp.(nodes := sp.nodes[c := p]);
    var spaces' := spaces[r := sp'];
    forall q | q in owner' ensures OwnerOk(free, owner', spaces', q) {
      assert OwnerOk(free, owner, spaces, q);
    }
    forall s | s in spaces' ensures SpaceOk(mem', owner', s, spaces'[s]) {
      if s != r {
        SpaceFrame(mem, owner, mem', owner', s, spaces[s]);
      } else {
        AddTableSpace(mem, owner, r, sp, n, i, p);
      }
    }
  }

  lemma AddTableDir(mem: map<nat, Page>, owner: map<nat, Owner>, r: nat, sp: Space, n: Node, i: nat, p: nat, m: Node, j: nat)
    requires SpaceOk(mem, owner, r, sp) && n in sp.nodes && 0 < n.level && i < 512
    requires Child(n, i) !in sp.nodes && p in owner && owner[p] == Loose && p in mem && mem[p] == Zeros()
    requires m in sp.nodes[Child(n, i) := p] && 0 < m.level && j < 512
    ensures var t := sp.nodes[n];
      t in mem && DirEntry(mem[t := mem[t][i := Pte(p, PTE_V)]], sp.(nodes := sp.nodes[Child(n, i) := p]), m, j)
  {
    assert NodeOk(mem, owner, r, sp, n);
    ChildInjective(m, j, n, i);
    if m == Child(n, i) {
      assert Child(m, j) in sp.nodes ==> NodeOk(mem, owner, r, sp, Child(m, j));
      assert Child(m, j) !in sp.nodes;
    } else {
      assert NodeOk(mem, owner, r, sp, m) && DirEntry(mem, sp, m, j);
    }
  }

  lemma ChildInjective(m: Node, j: nat, n: Node, i: nat)
    requires 0 < m.level && 0 < n.level && i < 512 && j < 512
    ensures Child(m, j) == Child(n, i) ==> m == n && j == i
    ensures Node(Child(m, j).level + 1, Child(m, j).prefix / 512) == m
  {
  }

  lemma AddTableSpace(mem: map<nat, Page>, owner: map<nat, Owner>, r: nat, sp: Space, n: Node, i: nat, p: nat)
    requires SpaceOk(mem, owner, r, sp) && n in sp.nodes && 0 < n.level && i < 512
    requires Child(n, i) !in sp.nodes && p in owner && owner[p] == Loose && p in mem && mem[p] == Zeros()
    ensures var t := sp.nodes[n]; var c := Child(n, i);
      && t in mem
      && SpaceOk(mem[t := mem[t][i := Pte(p, PTE_V)]], owner[p := Table(r, c)], r, sp.(nodes := sp.nodes[c := p]))
  {
    var t, c := sp.nodes[n], Child(n, i);
    assert NodeOk(mem, owner, r, sp, n);
    var mem', owner', sp' := mem[t := mem[t][i := Pte(p, PTE_V)]], owner[p := Table(r, c)], sp.(nodes := sp.nodes[c := p]);
    forall m | m in sp'.nodes ensures NodeOk(mem', owner', r, sp', m) {
      assert m != c ==> NodeOk(mem, owner, r, sp, m);
    }
    forall m, j | m in sp'.nodes && m.level > 0 && 0 <= j < 512 ensures DirEntry(mem', sp', m, j) {
      AddTableDir(mem, owner, r, sp, n, i, p, m, j);
    }
    forall m, j | m in sp'.nodes && m.level == 0 && 0 <= j < 512 ensures LeafEntry(mem', sp', m, j) {
      if m == c {
        var v := m.prefix * 512 + j;
        assert v in sp.leaf ==> LeafOwned(owner, r, sp, v);
      } else {
        assert NodeOk(mem, owner, r, sp, m) && LeafEntry(mem, sp, m, j);
      }
    }
    forall v | v in sp'.leaf ensures LeafOwned(owner', r, sp', v) {
      assert LeafOwned(owner, r, sp, v);
    }
  }

  /** Changing the map at one page number, together with its entry. */
  lemma LeafChangeSpace(mem: map<nat, Page>, owner: map<nat, Owner>, r: nat, sp: Space, v: nat,
                        leaf: map<nat, Leaf>, owner': map<nat, Owner>)
    requires SpaceOk(mem, owner, r, sp) && v < MAXVPN && NodeFor(v, 0) in sp.nodes
    requires forall w :: w != v ==> (w in leaf <==> w in sp.leaf) && (w in leaf ==> leaf[w] == sp.leaf[w])
    requires forall p :: p in owner && owner[p].Table? && owner[p].root == r ==> p in owner' && owner'[p] == owner[p]
    requires forall w :: w in leaf ==> LeafOwned(owner', r, sp.(leaf := leaf), w)
    ensures var t := sp.nodes[NodeFor(v, 0)];
      && t in mem
      && SpaceOk(mem[t := mem[t][Px(v, 0) := if v in leaf then Pte(leaf[v].ppn, leaf[v].flags) else 0]], owner', r, sp.(leaf := leaf))
  {
    var n := NodeFor(v, 0);
    var t := sp.nodes[n];
    assert NodeOk(mem, owner, r, sp, n);
    var mem' := mem[t := mem[t][Px(v, 0) := if v in leaf then Pte(leaf[v].ppn, leaf[v].flags) else 0]];
    var sp' := sp.(leaf := leaf);
    forall m | m in sp'.nodes ensures NodeOk(mem', owner', r, sp', m) {
      assert NodeOk(mem, owner, r, sp, m);
    }
    forall m, j | m in sp'.nodes && m.level > 0 && 0 <= j < 512 ensures DirEntry(mem', sp', m, j) {
      assert NodeOk(mem, owner, r, sp, m) && DirEntry(mem, sp, m, j);
    }
    forall m, j | m in sp'.nodes && m.level == 0 && 0 <= j < 512 ensures LeafEntry(mem', sp', m, j) {
      assert NodeOk(mem, owner, r, sp, m) && LeafEntry(mem, sp, m, j);
      SlotOf(v, m, j);
    }
  }

  /** The owners after a leaf of space r changed and at most its page changed hands. */
  lemma OwnersAfterLeaf(free: seq<nat>, owner: map<nat, Owner>, spaces: map<nat, Space>, r: nat, v: nat, leaf: map<nat, Leaf>,
                        p: nat, o: Owner)
    requires forall q :: q in owner ==> OwnerOk(free, owner, spaces, q)
    requires r in spaces && p in owner && !o.Free? && !o.Table? && (owner[p].Loose? || owner[p] == User(r, v))
    requires forall w :: w != v ==> (w in leaf <==> w in spaces[r].leaf) && (w in leaf ==> leaf[w] == spaces[r].leaf[w])
    requires v in spaces[r].leaf && IsUser(v) ==> spaces[r].leaf[v].ppn == p
    requires o.User? ==> o == User(r, v) && IsUser(v) && v in leaf && leaf[v].ppn == p
    ensures forall q :: q in owner ==> OwnerOk(free, owner[p := o], spaces[r := spaces[r].(leaf := leaf)], q)
  {
    forall q | q in owner ensures OwnerOk(free, owner[p := o], spaces[r := spaces[r].(leaf := leaf)], q) {
      assert OwnerOk(free, owner, spaces, q);
    }
  }

  lemma OtherSpaces(mem: map<nat, Page>, owner: map<nat, Owner>, mem': map<nat, Page>, owner': map<nat, Owner>,
                    r: nat, spaces: map<nat, Space>, spaces': map<nat, Space>)
    requires forall s :: s in spaces ==> SpaceOk(mem, owner, s, spaces[s])
    requires r in spaces' && SpaceOk(mem', owner', r, spaces'[r]) && mem.Keys == owner.Keys
    requires forall s :: s in spaces' && s != r ==> s in spaces && spaces'[s] == spaces[s]
    requires forall p :: p in owner && (owner[p].Table? || owner[p].User?) && owner[p].root != r ==>
      p in owner' && owner'[p] == owner[p] && p in mem' && mem'[p] == mem[p]
    ensures forall s :: s in spaces' ==> SpaceOk(mem', owner', s, spaces'[s])
  {
    forall s | s in spaces' ensures SpaceOk(mem', owner', s, spaces'[s]) {
      if s != r {
        SpaceFrame(mem, owner, mem', owner', s, spaces[s]);
      }
    }
  }

  /** Walks of different pages, in one address space or in two, end at different entries: table
      page and index determine the space and the page number. */
  lemma EntryDetermines(mem: map<nat, Page>, free: seq<nat>, owner: map<nat, Owner>, spaces: map<nat, Space>, r: nat, v: nat, s: nat, w: nat)
    requires Ok(mem, free, owner, spaces) && r in spaces && s in spaces && v < MAXVPN && w < MAXVPN
    requires NodeFor(v, 0) in spaces[r].nodes && NodeFor(w, 0) in spaces[s].nodes
    requires spaces[r].nodes[NodeFor(v, 0)] == spaces[s].nodes[NodeFor(w, 0)] && Px(v, 0) == Px(w, 0)
    ensures r == s && v == w
  {
    assert SpaceOk(mem, owner, r, spaces[r]) && SpaceOk(mem, owner, s, spaces[s]);
    assert NodeOk(mem, owner, r, spaces[r], NodeFor(v, 0)) && NodeOk(mem, owner, s, spaces[s], NodeFor(w, 0));
    SlotOf(v, NodeFor(w, 0), Px(w, 0));
  }

  /** Filling an empty leaf entry; below the trapframe the page passes to the space. */
  lemma SetLeafOk(mem: map<nat, Page>, free: seq<nat>, owner: map<nat, Owner>, spaces: map<nat, Space>,
                  r: nat, v: nat, l: Leaf)
    requires Ok(mem, free, owner, spaces) && r in spaces && v < MAXVPN && NodeFor(v, 0) in spaces[r].nodes
    requires v !in spaces[r].leaf && LeafOk(l)
    requires IsUser(v) ==> l.ppn in owner && owner[l.ppn] == Loose
    ensures var sp := spaces[r]; var t := sp.nodes[NodeFor(v, 0)];
      && t in mem
      && Ok(mem[t := mem[t][Px(v, 0) := Pte(l.ppn, l.flags)]], free,
            if IsUser(v) then owner[l.ppn := User(r, v)] else owner, spaces[r := sp.(leaf := sp.leaf[v := l])])
  {
    var sp, n := spaces[r], NodeFor(v, 0);
    var t := sp.nodes[n];
    assert SpaceOk(mem, owner, r, spaces[r]);
    assert NodeOk(mem, owner, r, sp, n) && OwnerOk(free, owner, spaces, t);
    var mem' := mem[t := mem[t][Px(v, 0) := Pte(l.ppn, l.flags)]];
    var owner' := if IsUser(v) then owner[l.ppn := User(r, v)] else owner;
    var leaf := sp.leaf[v := l];
    if IsUser(v) {
      OwnersAfterLeaf(free, owner, spaces, r, v, leaf, l.ppn, User(r, v));
    } else {
      forall q | q in owner' ensures OwnerOk(free, owner', spaces[r := sp.(leaf := leaf)], q) {
        assert OwnerOk(free, owner, spaces, q);
      }
    }
    forall w | w in leaf ensures LeafOwned(owner', r, sp.(leaf := leaf), w) {
      assert w != v ==> LeafOwned(owner, r, sp, w);
    }
    LeafChangeSpace(mem, owner, r, sp, v, leaf, owner');
    OtherSpaces(mem, owner, mem', owner', r, spaces, spaces[r := sp.(leaf := leaf)]);
  }

  /** Clearing a leaf entry; a user page becomes the caller's to free. */
  lemma ClearLeafOk(mem: map<nat, Page>, free: seq<nat>, owner: map<nat, Owner>, spaces: map<nat, Space>, r: nat, v: nat)
    requires Ok(mem, free, owner, spaces) && r in spaces && v in spaces[r].leaf
    ensures var sp := spaces[r];
      && v < MAXVPN && NodeFor(v, 0) in sp.nodes && sp.nodes[NodeFor(v, 0)] in mem
      && var t := sp.nodes[NodeFor(v, 0)];
         Ok(mem[t := mem[t][Px(v, 0) := 0]], free,
            if IsUser(v) then owner[sp.leaf[v].ppn := Loose] else owner, spaces[r := sp.(leaf := sp.leaf - {v})])
  {
    var sp := spaces[r];
    assert SpaceOk(mem, owner, r, spaces[r]) && LeafOwned(owner, r, sp, v);
    var n := NodeFor(v, 0);
    var t := sp.nodes[n];
    assert NodeOk(mem, owner, r, sp, n) && OwnerOk(free, owner, spaces, t);
    var mem' := mem[t := mem[t][Px(v, 0) := 0]];
    var owner' := if IsUser(v) then owner[sp.leaf[v].ppn := Loose] else owner;
    var leaf := sp.leaf - {v};
    if IsUser(v) {
      OwnersAfterLeaf(free, owner, spaces, r, v, leaf, sp.leaf[v].ppn, Loose);
    } else {
      forall q | q in owner' ensures OwnerOk(free, owner', spaces[r := sp.(leaf := leaf)], q) {
        assert OwnerOk(free, owner, spaces, q);
      }
    }
    forall w | w in leaf ensures LeafOwned(owner', r, sp.(leaf := leaf), w) {
      assert LeafOwned(owner, r, sp, w);
    }
    LeafChangeSpace(mem, owner, r, sp, v, leaf, owner');
    OtherSpaces(mem, owner, mem', owner', r, spaces, spaces[r := sp.(leaf := leaf)]);
  }

  /** A zeroed page is an empty address space. */
  lemma NewSpaceOk(mem: map<nat, Page>, free: seq<nat>, owner: map<nat, Owner>, spaces: map<nat, Space>, p: nat)
    requires Ok(mem, free, owner, spaces) && p in owner && owner[p] == Loose && mem[p] == Zeros()
    ensures p !in spaces
    ensures Ok(mem, free, owner[p := Table(p, Root)], spaces[p := Space(map[Root := p], map[])])
  {
    var owner', spaces' := owner[p := Table(p, Root)], spaces[p := Space(map[Root := p], map[])];
    assert p in spaces ==> SpaceOk(mem, owner, p, spaces[p]) && NodeOk(mem, owner, p, spaces[p], Root);
    forall q | q in owner' ensures OwnerOk(free, owner', spaces', q) {
      assert OwnerOk(free, owner, spaces, q);
    }
    forall s | s in spaces' ensures SpaceOk(mem, owner', s, spaces'[s]) {
      if s != p {
        SpaceFrame(mem, owner, mem, owner', s, spaces[s]);
      }
    }
  }
}
