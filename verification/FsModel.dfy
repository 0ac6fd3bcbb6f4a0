/** Blocks, the free bitmap, inodes and block ownership (kernel/fs.c, kernel/fs.h). */
module FsModel {
  import opened Common
  import Words

  const BSIZE := 1024
  const BPB := 8192
  const IPB := 16
  const NDIRECT := 12
  const NINDIRECT := 256
  const MAXFILE := 268
  const WORD := 0x1_0000_0000

  type Byte = x: nat | x < 256

  type Block = b: seq<Byte> | |b| == 1024 witness seq(1024, i => 0)

  function ZeroBlock(): Block {
    seq(1024, i => 0)
  }

  /** The blocks before datastart hold the boot block, super block, log, inodes and bitmap. */
  datatype Super = Super(size: nat, ninodes: nat, inodestart: nat, bmapstart: nat, datastart: nat) {
    predicate Valid() {
      && 0 < inodestart && inodestart + ninodes / IPB < bmapstart
      && bmapstart + size / BPB < datastart <= size < WORD
    }

    function Bblock(b: nat): nat {
      bmapstart + b / BPB
    }

    function Iblock(i: nat): nat {
      inodestart + i / IPB
    }
  }

  // ---- words of the indirect block, little-endian ----

  function Word(b: Block, j: nat): (x: nat)
    requires j < NINDIRECT
    ensures x < WORD
  {
    var b0: nat, b1: nat, b2: nat, b3: nat := b[4 * j], b[4 * j + 1], b[4 * j + 2], b[4 * j + 3];
    b0 + 0x100 * b1 + 0x1_0000 * b2 + 0x100_0000 * b3
  }

  function SetWord(b: Block, j: nat, x: nat): Block
    requires j < NINDIRECT && x < WORD
  {
    b[4 * j := x % 0x100][4 * j + 1 := x / 0x100 % 0x100][4 * j + 2 := x / 0x1_0000 % 0x100][4 * j + 3 := x / 0x100_0000]
  }

  lemma WordSet(b: Block, j: nat, x: nat, k: nat)
    requires j < NINDIRECT && k < NINDIRECT && x < WORD
    ensures Word(SetWord(b, j, x), k) == if k == j then x else Word(b, k)
  {
  }

  // ---- bits of the free map ----

  /** `x & (1 << i)` is not zero. */
  predicate Bit(x: nat, i: nat) {
    if i == 0 then x % 2 == 1 else Bit(x / 2, i - 1)
  }

  /** Testing a bit is `&` with its mask, and setting a clear one is `|`. */
  lemma {:induction false} MaskWords(x: nat, i: nat)
    ensures Words.And(x, Mask(i)) != 0 <==> Bit(x, i)
    ensures !Bit(x, i) ==> Words.Or(x, Mask(i)) == x + Mask(i)
  {
    if i == 0 {
      Words.OrOne(x);
    } else {
      assert Mask(i) == 2 * Mask(i - 1);
      MaskWords(x / 2, i - 1);
    }
  }

  lemma AndEven(x: nat, y: nat)
    ensures Words.And(x, 2 * y) == 2 * Words.And(x / 2, y)
  {
  }

  lemma AndFull(x: nat, n: nat)
    requires x < Mask(n)
    ensures Words.And(x, Mask(n) - 1) == x
  {
    Words.AndLow(x, n);
    Words.ModIs(x, Mask(n), 0, x);
  }

  lemma ClearLow(x: nat, n: nat)
    requires 0 < n && x < Mask(n) && x % 2 == 1
    ensures 1 < Mask(n) && Words.And(x, Words.Not(1, n)) == x - 1
  {
    var h := Mask(n - 1);
    assert Mask(n) == 2 * h;
    AndFull(x / 2, n - 1);
    AndEven(x, h - 1);
    assert Words.Not(1, n) == 2 * (h - 1);
  }

  lemma NotHalf(y: nat, n: nat)
    requires 0 < n && y < Mask(n - 1)
    ensures 2 * y < Mask(n) && Words.Not(2 * y, n) == 2 * Words.Not(y, n - 1) + 1
  {
  }

  /** Clearing a set one is `& ~`. */
  lemma {:induction false} ClearWords(x: nat, i: nat, n: nat)
    requires i < n && x < Mask(n) && Bit(x, i)
    ensures Mask(i) < Mask(n) && Mask(i) <= x && Words.And(x, Words.Not(Mask(i), n)) == x - Mask(i)
  {
    if i == 0 {
      ClearLow(x, n);
    } else {
      var m := Mask(i - 1);
      ClearWords(x / 2, i - 1, n - 1);
      NotHalf(m, n);
      Words.AndOdd(x, Words.Not(m, n - 1));
    }
  }

  /** Adding the mask of a clear bit, and taking away that of a set one, is `|` and `& ~`. */
  lemma {:induction false} BitAfter(x: nat, i: nat, j: nat)
    ensures !Bit(x, i) ==> (Bit(x + Mask(i), j) <==> j == i || Bit(x, j))
    ensures Bit(x, i) ==> Mask(i) <= x && (Bit(x - Mask(i), j) <==> j != i && Bit(x, j))
  {
    if i > 0 {
      assert (x + Mask(i)) / 2 == x / 2 + Mask(i - 1);
      BitAfter(x / 2, i - 1, if j == 0 then 0 else j - 1);
      assert Bit(x, i) ==> (x - Mask(i)) / 2 == x / 2 - Mask(i - 1);
    }
  }

  lemma {:induction false} BitFits(x: nat, i: nat, n: nat)
    requires i < n && x < Mask(n) && !Bit(x, i)
    ensures x + Mask(i) < Mask(n)
  {
    var h := Mask(n - 1);
    assert Mask(n) == 2 * h && x / 2 < h;
    if i > 0 {
      BitFits(x / 2, i - 1, n - 1);
      assert x / 2 + Mask(i - 1) + 1 <= h;
    } else {
      assert x == 2 * (x / 2);
    }
  }

  lemma ByteBits()
    ensures Mask(8) == 256
  {
    assert Mask(1) == 2 && Mask(2) == 4 && Mask(3) == 8 && Mask(4) == 16 && Mask(5) == 32 && Mask(6) == 64 && Mask(7) == 128;
  }

  predicate BlockBit(b: Block, k: nat)
    requires k < BPB
  {
    Bit(b[k / 8], k % 8)
  }

  /** The bitmap block with bit k changed to v. */
  function SetBlockBit(b: Block, k: nat, v: bool): Block
    requires k < BPB && BlockBit(b, k) == !v
  {
    var x: nat := b[k / 8];
    BitAfter(x, k % 8, 0);
    if v then ByteBits(); BitFits(x, k % 8, 8); b[k / 8 := x + Mask(k % 8)] else b[k / 8 := x - Mask(k % 8)]
  }

  lemma BlockBitSet(b: Block, k: nat, v: bool, j: nat)
    requires k < BPB && j < BPB && BlockBit(b, k) == !v
    ensures BlockBit(SetBlockBit(b, k, v), j) == if j == k then v else BlockBit(b, j)
  {
    BitAfter(b[k / 8], k % 8, j % 8);
  }

  // ---- inodes and ownership ----

  datatype Inode = Inode(addrs: seq<nat>, size: nat)

  datatype Owner = Free | Meta | Held | Data(inum: nat, bn: nat) | Indirect(inum: nat)

  /** The block of index n of an inode, or 0. */
  function Addr(block: map<nat, Block>, ip: Inode, n: nat): nat {
    if |ip.addrs| != NDIRECT + 1 || MAXFILE <= n then 0
    else if n < NDIRECT then ip.addrs[n]
    else if ip.addrs[NDIRECT] == 0 || ip.addrs[NDIRECT] !in block then 0
    else Word(block[ip.addrs[NDIRECT]], n - NDIRECT)
  }

  predicate InUse(sb: Super, block: map<nat, Block>, b: nat) {
    sb.Bblock(b) in block && BlockBit(block[sb.Bblock(b)], b % BPB)
  }

  predicate BitOk(sb: Super, block: map<nat, Block>, owner: map<nat, Owner>, b: nat) {
    b in owner && (InUse(sb, block, b) <==> !owner[b].Free?) && (owner[b].Meta? <==> b < sb.datastart)
  }

  /** A recorded owner really has the block. */
  predicate OwnerOk(block: map<nat, Block>, inode: map<nat, Inode>, owner: map<nat, Owner>, b: nat)
    requires b in owner
  {
    && (owner[b].Data? ==> owner[b].inum in inode && owner[b].bn < MAXFILE && Addr(block, inode[owner[b].inum], owner[b].bn) == b)
    && (owner[b].Indirect? ==> owner[b].inum in inode && |inode[owner[b].inum].addrs| == NDIRECT + 1
                               && inode[owner[b].inum].addrs[NDIRECT] == b)
  }

  predicate MapOk(block: map<nat, Block>, inode: map<nat, Inode>, owner: map<nat, Owner>, i: nat, n: nat)
    requires i in inode
  {
    var a := Addr(block, inode[i], n);
    a != 0 ==> a in owner && owner[a] == Data(i, n)
  }

  /** No block below the size of a file is missing. */
  predicate Mapped(block: map<nat, Block>, ip: Inode, n: nat) {
    n * BSIZE < ip.size ==> Addr(block, ip, n) != 0
  }

  ghost predicate InodeOk(sb: Super, block: map<nat, Block>, inode: map<nat, Inode>, owner: map<nat, Owner>, i: nat)
    requires i in inode
  {
    && i < sb.ninodes && |inode[i].addrs| == NDIRECT + 1 && inode[i].size <= MAXFILE * BSIZE
    && (inode[i].addrs[NDIRECT] != 0 ==> inode[i].addrs[NDIRECT] in owner && owner[inode[i].addrs[NDIRECT]] == Indirect(i))
    && (forall n {:trigger MapOk(block, inode, owner, i, n)} :: 0 <= n < MAXFILE ==> MapOk(block, inode, owner, i, n))
    && (forall n {:trigger Mapped(block, inode[i], n)} :: 0 <= n < MAXFILE ==> Mapped(block, inode[i], n))
  }

  /** Every block has one owner, the bitmap marks exactly the owned ones, and no file has a
      hole below its size. */
  ghost predicate Ok(sb: Super, block: map<nat, Block>, inode: map<nat, Inode>, owner: map<nat, Owner>) {
    && sb.Valid() && block.Keys == owner.Keys && (forall b :: b in owner ==> b < sb.size)
    && (forall b: nat {:trigger BitOk(sb, block, owner, b)} :: b < sb.size ==> BitOk(sb, block, owner, b))
    && (forall b {:trigger OwnerOk(block, inode, owner, b)} :: b in owner ==> OwnerOk(block, inode, owner, b))
    && (forall i {:trigger InodeOk(sb, block, inode, owner, i)} :: i in inode ==> InodeOk(sb, block, inode, owner, i))
  }

  // ---- primitive changes ----

  /** Blocks that hold neither the bitmap nor an indirect block may change freely. */
  predicate Plain(o: Owner) {
    o.Held? || o.Data?
  }

  lemma AddrFrame(sb: Super, block: map<nat, Block>, inode: map<nat, Inode>, owner: map<nat, Owner>, block': map<nat, Block>, i: nat, n: nat)
    requires Ok(sb, block, inode, owner) && i in inode && block'.Keys == block.Keys
    requires forall b {:trigger block'[b]} :: b in owner && owner[b] == Indirect(i) ==> block'[b] == block[b]
    ensures Addr(block', inode[i], n) == Addr(block, inode[i], n)
  {
    assert InodeOk(sb, block, inode, owner, i);
  }

  /** Only bitmap blocks and plain blocks change, and only owners that are not recorded in
      an inode: the inodes are as good as before. */
  lemma InodesFrame(sb: Super, block: map<nat, Block>, inode: map<nat, Inode>, owner: map<nat, Owner>,
                    block': map<nat, Block>, owner': map<nat, Owner>)
    requires Ok(sb, block, inode, owner) && block'.Keys == block.Keys == owner'.Keys
    requires forall b {:trigger block'[b]} :: b in owner && owner[b].Indirect? ==> block'[b] == block[b]
    requires forall b {:trigger owner'[b]} :: b in owner && (owner[b].Data? || owner[b].Indirect?) ==> owner'[b] == owner[b]
    requires forall b {:trigger owner'[b]} :: b in owner && (owner'[b].Data? || owner'[b].Indirect?) ==> owner'[b] == owner[b]
    ensures forall b {:trigger OwnerOk(block', inode, owner', b)} :: b in owner' ==> OwnerOk(block', inode, owner', b)
    ensures forall i {:trigger InodeOk(sb, block', inode, owner', i)} :: i in inode ==> InodeOk(sb, block', inode, owner', i)
  {
    forall b | b in owner' ensures OwnerOk(block', inode, owner', b) {
      assert OwnerOk(block, inode, owner, b);
      if owner[b].Data? {
        AddrFrame(sb, block, inode, owner, block', owner[b].inum, owner[b].bn);
      }
    }
    forall i | i in inode ensures InodeOk(sb, block', inode, owner', i) {
      assert InodeOk(sb, block, inode, owner, i);
      forall n | 0 <= n < MAXFILE ensures MapOk(block', inode, owner', i, n) && Mapped(block', inode[i], n) {
        assert MapOk(block, inode, owner, i, n) && Mapped(block, inode[i], n);
        AddrFrame(sb, block, inode, owner, block', i, n);
      }
    }
  }

  /** Contents of plain blocks do not matter. */
  lemma StoreOk(sb: Super, block: map<nat, Block>, inode: map<nat, Inode>, owner: map<nat, Owner>, b: nat, data: Block)
    requires Ok(sb, block, inode, owner) && b in owner && Plain(owner[b])
    ensures Ok(sb, block[b := data], inode, owner)
  {
    var block' := block[b := data];
    assert OwnerOk(block, inode, owner, b) && BitOk(sb, block, owner, b);
    forall c: nat | c < sb.size ensures BitOk(sb, block', owner, c) {
      assert BitOk(sb, block, owner, c);
      MetaBitmap(sb, c);
    }
    InodesFrame(sb, block, inode, owner, block', owner);
  }

  lemma MetaBitmap(sb: Super, b: nat)
    requires sb.Valid() && b < sb.size
    ensures sb.Bblock(b) < sb.datastart
  {
  }

  /** Taking a free block, or giving back one that is held, together with its bit. */
  lemma ToggleOk(sb: Super, block: map<nat, Block>, inode: map<nat, Inode>, owner: map<nat, Owner>, b: nat, v: bool)
    requires Ok(sb, block, inode, owner) && b in owner && owner[b] == if v then Free else Held
    ensures var m := sb.Bblock(b);
      && m in block && BlockBit(block[m], b % BPB) == !v
      && Ok(sb, block[m := SetBlockBit(block[m], b % BPB, v)], inode, owner[b := if v then Held else Free])
  {
    var m := sb.Bblock(b);
    assert OwnerOk(block, inode, owner, b) && BitOk(sb, block, owner, b);
    MetaBitmap(sb, b);
    assert BitOk(sb, block, owner, m);
    var block', owner' := block[m := SetBlockBit(block[m], b % BPB, v)], owner[b := if v then Held else Free];
    forall c: nat | c < sb.size ensures BitOk(sb, block', owner', c) {
      assert BitOk(sb, block, owner, c);
      BlockBitSet(block[m], b % BPB, v, c % BPB);
      SameBit(sb, b, c);
    }
    InodesFrame(sb, block, inode, owner, block', owner');
  }

  lemma SameBit(sb: Super, b: nat, c: nat)
    ensures sb.Bblock(b) == sb.Bblock(c) && b % BPB == c % BPB ==> b == c
  {
  }

  /** An owner that operations on inode i may change. */
  predicate Mine(o: Owner, i: nat) {
    o.Held? || (o.Data? && o.inum == i) || (o.Indirect? && o.inum == i)
  }

  /** An operation on the block map of inode i has only that inode to look after. */
  lemma OneInodeOk(sb: Super, block: map<nat, Block>, inode: map<nat, Inode>, owner: map<nat, Owner>,
                   block': map<nat, Block>, inode': map<nat, Inode>, owner': map<nat, Owner>, i: nat)
    requires Ok(sb, block, inode, owner) && i in inode
    requires block'.Keys == block.Keys == owner'.Keys && inode'.Keys == inode.Keys
    requires forall j {:trigger inode'[j]} :: j in inode && j != i ==> inode'[j] == inode[j]
    requires forall b {:trigger block'[b]} :: b in owner && block'[b] != block[b] ==> Mine(owner[b], i)
    requires forall b {:trigger owner'[b]} :: b in owner && owner'[b] != owner[b] ==> Mine(owner[b], i) && Mine(owner'[b], i)
    requires InodeOk(sb, block', inode', owner', i)
    requires forall b {:trigger OwnerOk(block', inode', owner', b)} :: b in owner' && Mine(owner'[b], i) ==> OwnerOk(block', inode', owner', b)
    ensures Ok(sb, block', inode', owner')
  {
    forall b: nat | b < sb.size ensures BitOk(sb, block', owner', b) {
      MetaBitmap(sb, b);
      assert BitOk(sb, block, owner, b) && BitOk(sb, block, owner, sb.Bblock(b));
    }
    forall b | b in owner' ensures OwnerOk(block', inode', owner', b) {
      assert OwnerOk(block, inode, owner, b);
      if owner[b].Data? && !Mine(owner[b], i) {
        AddrFrame(sb, block, inode, owner, block', owner[b].inum, owner[b].bn);
      }
    }
    forall j | j in inode' ensures InodeOk(sb, block', inode', owner', j) {
      if j != i {
        OtherInodeOk(sb, block, inode, owner, block', inode', owner', i, j);
      }
    }
  }

  lemma OtherInodeOk(sb: Super, block: map<nat, Block>, inode: map<nat, Inode>, owner: map<nat, Owner>,
                     block': map<nat, Block>, inode': map<nat, Inode>, owner': map<nat, Owner>, i: nat, j: nat)
    requires Ok(sb, block, inode, owner) && j in inode && j in inode' && inode'[j] == inode[j] && i != j
    requires block'.Keys == block.Keys == owner'.Keys
    requires forall b {:trigger block'[b]} :: b in owner && block'[b] != block[b] ==> Mine(owner[b], i)
    requires forall b {:trigger owner'[b]} :: b in owner && owner'[b] != owner[b] ==> Mine(owner[b], i) && Mine(owner'[b], i)
    ensures InodeOk(sb, block', inode', owner', j)
  {
    assert InodeOk(sb, block, inode, owner, j);
    forall n | 0 <= n < MAXFILE ensures MapOk(block', inode', owner', j, n) && Mapped(block', inode'[j], n) {
      assert MapOk(block, inode, owner, j, n) && Mapped(block, inode[j], n);
      AddrFrame(sb, block, inode, owner, block', j, n);
    }
  }

  /** `ip->addrs[k] = b` for an unmapped direct block. */
  lemma AttachDirectOk(sb: Super, block: map<nat, Block>, inode: map<nat, Inode>, owner: map<nat, Owner>, i: nat, k: nat, b: nat)
    requires Ok(sb, block, inode, owner) && i in inode && k < NDIRECT && b in owner && owner[b] == Held
    requires |inode[i].addrs| == NDIRECT + 1 && inode[i].addrs[k] == 0
    ensures Ok(sb, block, inode[i := inode[i].(addrs := inode[i].addrs[k := b])], owner[b := Data(i, k)])
    ensures b != 0
    ensures forall n: nat :: Addr(block, inode[i].(addrs := inode[i].addrs[k := b]), n) == if n == k then b else Addr(block, inode[i], n)
  {
    var ip := inode[i].(addrs := inode[i].addrs[k := b]);
    var inode', owner' := inode[i := ip], owner[b := Data(i, k)];
    assert InodeOk(sb, block, inode, owner, i) && BitOk(sb, block, owner, b);
    forall n | 0 <= n < MAXFILE ensures MapOk(block, inode', owner', i, n) && Mapped(block, inode'[i], n) {
      assert MapOk(block, inode, owner, i, n) && Mapped(block, inode[i], n);
    }
    forall c | c in owner' && Mine(owner'[c], i) ensures OwnerOk(block, inode', owner', c) {
      assert OwnerOk(block, inode, owner, c) && BitOk(sb, block, owner, c);
    }
    OneInodeOk(sb, block, inode, owner, block, inode', owner', i);
  }

  /** `ip->addrs[NDIRECT] = b` with a zeroed block b. */
  lemma AttachIndirectOk(sb: Super, block: map<nat, Block>, inode: map<nat, Inode>, owner: map<nat, Owner>, i: nat, b: nat)
    requires Ok(sb, block, inode, owner) && i in inode && b in owner && owner[b] == Held && block[b] == ZeroBlock()
    requires |inode[i].addrs| == NDIRECT + 1 && inode[i].addrs[NDIRECT] == 0
    ensures Ok(sb, block, inode[i := inode[i].(addrs := inode[i].addrs[NDIRECT := b])], owner[b := Indirect(i)])
    ensures b != 0
    ensures forall n: nat :: Addr(block, inode[i].(addrs := inode[i].addrs[NDIRECT := b]), n) == Addr(block, inode[i], n)
  {
    var ip := inode[i].(addrs := inode[i].addrs[NDIRECT := b]);
    var inode', owner' := inode[i := ip], owner[b := Indirect(i)];
    assert InodeOk(sb, block, inode, owner, i) && BitOk(sb, block, owner, b);
    assert forall k :: 0 <= k < NINDIRECT ==> Word(block[b], k) == 0;
    forall n | 0 <= n < MAXFILE ensures MapOk(block, inode', owner', i, n) && Mapped(block, inode'[i], n) {
      assert MapOk(block, inode, owner, i, n) && Mapped(block, inode[i], n);
    }
    forall c | c in owner' && Mine(owner'[c], i) ensures OwnerOk(block, inode', owner', c) {
      assert OwnerOk(block, inode, owner, c) && BitOk(sb, block, owner, c);
    }
    OneInodeOk(sb, block, inode, owner, block, inode', owner', i);
  }

  /** `a[k] = b` in the indirect block. */
  lemma AttachEntryOk(sb: Super, block: map<nat, Block>, inode: map<nat, Inode>, owner: map<nat, Owner>, i: nat, k: nat, b: nat)
    requires Ok(sb, block, inode, owner) && i in inode && k < NINDIRECT && b in owner && owner[b] == Held
    requires |inode[i].addrs| == NDIRECT + 1 && inode[i].addrs[NDIRECT] != 0 && Addr(block, inode[i], NDIRECT + k) == 0
    ensures var t := inode[i].addrs[NDIRECT];
      && t in block && b < WORD && b != 0
      && Ok(sb, block[t := SetWord(block[t], k, b)], inode, owner[b := Data(i, NDIRECT + k)])
      && forall n: nat :: Addr(block[t := SetWord(block[t], k, b)], inode[i], n) == if n == NDIRECT + k then b else Addr(block, inode[i], n)
  {
    var t := inode[i].addrs[NDIRECT];
    assert InodeOk(sb, block, inode, owner, i) && BitOk(sb, block, owner, b);
    var block', owner' := block[t := SetWord(block[t], k, b)], owner[b := Data(i, NDIRECT + k)];
    forall n: nat ensures Addr(block', inode[i], n) == if n == NDIRECT + k then b else Addr(block, inode[i], n) {
      if NDIRECT <= n < MAXFILE {
        WordSet(block[t], k, b, n - NDIRECT);
      }
    }
    forall n | 0 <= n < MAXFILE ensures MapOk(block', inode, owner', i, n) && Mapped(block', inode[i], n) {
      assert MapOk(block, inode, owner, i, n) && Mapped(block, inode[i], n);
    }
    forall c | c in owner' && Mine(owner'[c], i) ensures OwnerOk(block', inode, owner', c) {
      assert OwnerOk(block, inode, owner, c) && BitOk(sb, block, owner, c);
    }
    OneInodeOk(sb, block, inode, owner, block', inode, owner', i);
  }

  /** The block of a direct entry that is about to be cleared. */
  lemma DetachDirectOk(sb: Super, block: map<nat, Block>, inode: map<nat, Inode>, owner: map<nat, Owner>, i: nat, k: nat)
    requires Ok(sb, block, inode, owner) && i in inode && inode[i].size == 0 && k < NDIRECT
    requires |inode[i].addrs| == NDIRECT + 1 && inode[i].addrs[k] != 0
    ensures inode[i].addrs[k] in owner && owner[inode[i].addrs[k]] == Data(i, k)
    ensures Ok(sb, block, inode[i := inode[i].(addrs := inode[i].addrs[k := 0])], owner[inode[i].addrs[k] := Held])
  {
    var a := inode[i].addrs[k];
    var ip := inode[i].(addrs := inode[i].addrs[k := 0]);
    assert InodeOk(sb, block, inode, owner, i) && MapOk(block, inode, owner, i, k);
    var inode', owner' := inode[i := ip], owner[a := Held];
    forall n | 0 <= n < MAXFILE ensures MapOk(block, inode', owner', i, n) && Mapped(block, inode'[i], n) {
      assert MapOk(block, inode, owner, i, n);
    }
    forall c | c in owner' && Mine(owner'[c], i) ensures OwnerOk(block, inode', owner', c) {
      assert OwnerOk(block, inode, owner, c);
    }
    OneInodeOk(sb, block, inode, owner, block, inode', owner', i);
  }

  /** Owners once the indirect block of inode i no longer counts: it and the blocks it lists
      are up for freeing. */
  function Unlisted(owner: map<nat, Owner>, i: nat): map<nat, Owner> {
    map b | b in owner ::
      if owner[b] == Indirect(i) || (owner[b].Data? && owner[b].inum == i && NDIRECT <= owner[b].bn) then Held else owner[b]
  }

  lemma DetachIndirectOk(sb: Super, block: map<nat, Block>, inode: map<nat, Inode>, owner: map<nat, Owner>, i: nat)
    requires Ok(sb, block, inode, owner) && i in inode && inode[i].size == 0 && |inode[i].addrs| == NDIRECT + 1
    ensures Ok(sb, block, inode[i := inode[i].(addrs := inode[i].addrs[NDIRECT := 0])], Unlisted(owner, i))
  {
    var ip := inode[i].(addrs := inode[i].addrs[NDIRECT := 0]);
    assert InodeOk(sb, block, inode, owner, i);
    var inode', owner' := inode[i := ip], Unlisted(owner, i);
    forall n | 0 <= n < MAXFILE ensures MapOk(block, inode', owner', i, n) && Mapped(block, inode'[i], n) {
      assert MapOk(block, inode, owner, i, n);
    }
    forall c | c in owner' && Mine(owner'[c], i) ensures OwnerOk(block, inode', owner', c) {
      assert OwnerOk(block, inode, owner, c);
    }
    OneInodeOk(sb, block, inode, owner, block, inode', owner', i);
  }

  /** A size within the mapped blocks. */
  lemma ResizeOk(sb: Super, block: map<nat, Block>, inode: map<nat, Inode>, owner: map<nat, Owner>, i: nat, size: nat)
    requires Ok(sb, block, inode, owner) && i in inode && size <= MAXFILE * BSIZE
    requires forall n {:trigger Addr(block, inode[i], n)} :: 0 <= n && n * BSIZE < size ==> Addr(block, inode[i], n) != 0
    ensures Ok(sb, block, inode[i := inode[i].(size := size)], owner)
  {
    var inode' := inode[i := inode[i].(size := size)];
    assert InodeOk(sb, block, inode, owner, i);
    forall n | 0 <= n < MAXFILE ensures MapOk(block, inode', owner, i, n) && Mapped(block, inode'[i], n) {
      assert MapOk(block, inode, owner, i, n);
      assert Addr(block, inode'[i], n) == Addr(block, inode[i], n);
    }
    forall c | c in owner && Mine(owner[c], i) ensures OwnerOk(block, inode', owner, c) {
      assert OwnerOk(block, inode, owner, c);
    }
    OneInodeOk(sb, block, inode, owner, block, inode', owner, i);
  }

  // ---- a new file system ----

  lemma {:induction false} LowBits(n: nat, i: nat)
    ensures Bit(Mask(n) - 1, i) <==> i < n
  {
    if n > 0 {
      assert (Mask(n) - 1) / 2 == Mask(n - 1) - 1 && (Mask(n) - 1) % 2 == 1;
      if i > 0 {
        LowBits(n - 1, i - 1);
      }
    } else {
      ZeroBits(i);
    }
  }

  lemma {:induction false} ZeroBits(i: nat)
    ensures !Bit(0, i)
  {
    if i > 0 {
      ZeroBits(i - 1);
    }
  }

  /** How many of the eight blocks from b on lie below n. */
  function Clamp(n: nat, b: nat): (k: nat)
    ensures k <= 8
  {
    if n <= b then 0 else if n - b < 8 then n - b else 8
  }

  lemma {:induction false} MaskGrows(k: nat, n: nat)
    requires k <= n
    ensures Mask(k) <= Mask(n)
  {
    if k < n {
      MaskGrows(k, n - 1);
    }
  }

  function UsedByte(n: nat, b: nat): Byte {
    ByteBits();
    MaskGrows(Clamp(n, b), 8);
    Mask(Clamp(n, b)) - 1
  }

  /** Block m of a bitmap in which the blocks below n are marked. */
  function UsedBits(n: nat, m: nat): Block {
    seq(1024, j requires 0 <= j => UsedByte(n, m * BPB + 8 * j))
  }

  lemma UsedBit(n: nat, b: nat)
    ensures BlockBit(UsedBits(n, b / BPB), b % BPB) <==> b < n
  {
    var m, k := b / BPB, b % BPB;
    var base := m * BPB + 8 * (k / 8);
    assert base + k % 8 == b;
    assert UsedBits(n, m)[k / 8] == UsedByte(n, base);
    LowBits(Clamp(n, base), k % 8);
  }

  function FormatBlock(sb: Super, b: nat): Block {
    if sb.bmapstart <= b < sb.datastart then UsedBits(sb.datastart, b - sb.bmapstart) else ZeroBlock()
  }

  predicate Within(b: nat, n: nat) {
    b < n
  }

  /** What mkfs leaves, but for the files it puts there: the metadata blocks are marked in use
      and every inode is empty. */
  function FormatBlocks(sb: Super): map<nat, Block> {
    map b: nat | b < sb.size && Within(b, sb.size) :: FormatBlock(sb, b)
  }

  function FormatInodes(sb: Super): map<nat, Inode> {
    map i: nat | i < sb.ninodes && Within(i, sb.ninodes) :: Inode(seq(NDIRECT + 1, k => 0), 0)
  }

  function FormatOwners(sb: Super): map<nat, Owner> {
    map b: nat | b < sb.size && Within(b, sb.size) :: if b < sb.datastart then Meta else Free
  }

  lemma FormatOk(sb: Super)
    requires sb.Valid()
    ensures Ok(sb, FormatBlocks(sb), FormatInodes(sb), FormatOwners(sb))
  {
    var block, inode, owner := FormatBlocks(sb), FormatInodes(sb), FormatOwners(sb);
    forall b: nat | b < sb.size ensures BitOk(sb, block, owner, b) {
      MetaBitmap(sb, b);
      assert Within(b, sb.size) && Within(sb.Bblock(b), sb.size);
      assert block[sb.Bblock(b)] == UsedBits(sb.datastart, b / BPB);
      UsedBit(sb.datastart, b);
    }
    forall i | i in inode ensures InodeOk(sb, block, inode, owner, i) {
      assert forall n: nat :: Addr(block, inode[i], n) == 0;
    }
  }
}
