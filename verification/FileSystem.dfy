/** The block allocator, the block map of inodes and their contents (kernel/fs.c), and the
    chunked writes of kernel/file.c.  `block` is what `bread` shows; `trace` lists the
    `log_write` calls of the current operation. */
module FileSystem {
  import opened Common
  import opened FsModel
  import LogSpace

  // ---- what a file holds ----

  function ByteAt(block: map<nat, Block>, ip: Inode, k: nat): Byte {
    var a := Addr(block, ip, k / BSIZE);
    if a in block then block[a][k % BSIZE] else 0
  }

  /** A file is a sequence of bytes. */
  function Content(block: map<nat, Block>, ip: Inode): (c: seq<Byte>)
    ensures |c| == ip.size
  {
    seq(ip.size, k requires 0 <= k => ByteAt(block, ip, k))
  }

  function Splice(c: seq<Byte>, off: nat, data: seq<Byte>): seq<Byte>
    requires off <= |c|
  {
    c[..off] + data + if off + |data| < |c| then c[off + |data|..] else []
  }

  /** A file after a write at off of which all of `data` reached the buffers and the first `keep`
      bytes were acknowledged: the rest shows as far as the file went before.  A write past the
      end writes nothing. */
  function After(c: seq<Byte>, off: nat, data: seq<Byte>, keep: nat): seq<Byte>
    requires keep <= |data|
  {
    if |c| < off then c else Splice(c, off, data)[..Max(|c|, off + keep)]
  }

  lemma AfterTwice(c: seq<Byte>, off: nat, first: seq<Byte>, second: seq<Byte>, keep: nat)
    requires keep <= |second| && off <= |c|
    ensures off + |first| <= |After(c, off, first, |first|)|
    ensures After(After(c, off, first, |first|), off + |first|, second, keep) == After(c, off, first + second, |first| + keep)
  {
    assert After(c, off, first, |first|) == Splice(c, off, first);
    SpliceTwice(c, off, first, second);
  }

  lemma SpliceTwice(c: seq<Byte>, off: nat, first: seq<Byte>, second: seq<Byte>)
    requires off <= |c|
    ensures off + |first| <= |Splice(c, off, first)|
    ensures Splice(Splice(c, off, first), off + |first|, second) == Splice(c, off, first + second)
  {
    var d, m := Splice(c, off, first), off + |first|;
    assert d[..m] == c[..off] + first;
    assert m + |second| < |c| ==> d[m + |second|..] == c[m + |second|..];
  }

  /** The bytes beyond the acknowledged ones that reached the buffers are what was there before. */
  predicate SameBytes(c: seq<Byte>, off: nat, data: seq<Byte>, keep: nat) {
    forall k :: keep <= k < |data| && off + k < |c| ==> data[k] == c[off + k]
  }

  /** A write is a splice of the acknowledged bytes exactly if that is so. */
  lemma SpliceExactly(c: seq<Byte>, off: nat, data: seq<Byte>, keep: nat)
    requires off <= |c| && keep <= |data|
    ensures After(c, off, data, keep) == Splice(c, off, data[..keep]) <==> SameBytes(c, off, data, keep)
  {
    var a, b := After(c, off, data, keep), Splice(c, off, data[..keep]);
    assert |a| == |b|;
    forall k | keep <= k < |data| && off + k < |c| ensures a[off + k] == data[k] && b[off + k] == c[off + k] {
    }
    if SameBytes(c, off, data, keep) {
      forall x | 0 <= x < |a| ensures a[x] == b[x] {
        assert off + keep <= x < off + |data| ==> data[x - off] == c[off + (x - off)];
      }
    }
  }

  /** A write from `off` on is refused: it starts beyond the end of the file, or its next n
      bytes, at `at`, would go beyond the largest size. */
  predicate CannotWrite(size: nat, off: nat, at: nat, n: nat) {
    size < off || MAXFILE * BSIZE < at + n
  }

  function Max(a: int, b: int): int {
    if a < b then b else a
  }

  /** A turn of `writei` starts or ends here: at the start or end of the write, or of a block. */
  predicate OnEdge(off: nat, n: nat, tot: nat) {
    tot == 0 || (off + tot) % BSIZE == 0 || tot == n
  }

  lemma NextEdge(off: nat, n: nat, tot: nat)
    requires tot < n
    ensures OnEdge(off, n, tot + Step(off + tot, n - tot))
  {
  }

  /** How `writei` of n bytes at off, of which `readable` can be read, comes to an end: tot bytes
      are acknowledged and `reach` have reached the buffers.  It stops at a block for which the
      disk has no room, or in the middle of which the source cannot be read. */
  ghost predicate Stopped(owner: map<nat, Owner>, off: nat, n: nat, readable: nat, tot: nat, reach: nat) {
    && tot <= reach <= n && tot <= readable && OnEdge(off, n, tot)
    && (tot < n ==> (reach == tot && NoneFree(owner)) || (reach == readable && readable < tot + Step(off + tot, n - tot)))
  }

  lemma Stops(owner: map<nat, Owner>, off: nat, n: nat, readable: nat, tot: nat, put: nat)
    requires tot < n && tot <= readable && OnEdge(off, n, tot) && put <= Step(off + tot, n - tot)
    requires (put == 0 && NoneFree(owner)) || put == readable - tot < Step(off + tot, n - tot)
    ensures Stopped(owner, off, n, readable, tot, tot + put)
  {
  }

  /** The source can be read up to the end, or up to where a block of the file begins. */
  predicate WholeBlocks(off: nat, n: nat, readable: nat) {
    readable >= n || readable == 0 || (off + readable) % BSIZE == 0
  }

  /** Exactly then no byte reaches a buffer without being acknowledged and logged. */
  lemma TornExactly(owner: map<nat, Owner>, off: nat, n: nat, readable: nat, tot: nat, reach: nat)
    requires Stopped(owner, off, n, readable, tot, reach)
    ensures WholeBlocks(off, n, readable) ==> reach == tot
    ensures !NoneFree(owner) && !WholeBlocks(off, n, readable) ==> tot < reach == readable
  {
  }

  // ---- what an operation on inode i may change ----

  ghost predicate NoneHeld(owner: map<nat, Owner>) {
    forall b {:trigger owner[b]} :: b in owner ==> !owner[b].Held?
  }

  ghost predicate NoneFree(owner: map<nat, Owner>) {
    forall b {:trigger owner[b]} :: b in owner ==> !owner[b].Free?
  }

  /** Data blocks stay with their owners, unchanged, and no block is freed. */
  ghost predicate DataKept(block: map<nat, Block>, owner: map<nat, Owner>, block': map<nat, Block>, owner': map<nat, Owner>) {
    && block.Keys == owner.Keys == block'.Keys == owner'.Keys
    && (forall b {:trigger block'[b]} {:trigger owner'[b]} :: b in owner && owner[b].Data? ==> owner'[b] == owner[b] && block'[b] == block[b])
    && (forall b {:trigger owner'[b]} :: b in owner && owner'[b].Free? ==> owner[b].Free?)
  }

  /** The block map of inode i may have gained an entry at index bn, and no other entry of
      any inode has changed. */
  ghost predicate OnlyEntry(block: map<nat, Block>, inode: map<nat, Inode>, block': map<nat, Block>, inode': map<nat, Inode>, i: nat, bn: int) {
    && inode'.Keys == inode.Keys && i in inode && inode'[i].size == inode[i].size
    && (forall j {:trigger inode'[j]} :: j in inode && j != i ==> inode'[j] == inode[j])
    && (forall j, n: nat {:trigger Addr(block', inode'[j], n)} :: j in inode && (j != i || n != bn || Addr(block, inode[j], n) != 0) ==>
          Addr(block', inode'[j], n) == Addr(block, inode[j], n))
  }

  class Fs {
    const sb: Super
    var block: map<nat, Block>
    /** The in-core inodes, and their copies on disk. */
    var inode: map<nat, Inode>
    var dinode: map<nat, Inode>
    ghost var owner: map<nat, Owner>
    ghost var trace: seq<nat>

    ghost predicate Sound()
      reads this
    {
      Ok(sb, block, inode, owner)
    }

    ghost predicate Valid()
      reads this
    {
      Ok(sb, block, inode, owner) && NoneHeld(owner)
    }

    /** A new file system without files. */
    constructor Format(super: Super)
      requires super.Valid()
      ensures Valid() && sb == super && dinode == inode && inode == FormatInodes(super) && trace == []
    {
      sb := super;
      block, inode, dinode := FormatBlocks(super), FormatInodes(super), FormatInodes(super);
      owner, trace := FormatOwners(super), [];
      new;
      FormatOk(super);
    }

    /** `balloc`: the first free block, zeroed, or 0 when there is none. */
    method Balloc() returns (r: nat)
      requires Sound()
      modifies this`block, this`owner, this`trace
      ensures Sound() && block.Keys == old(block).Keys
      ensures r == 0 ==> block == old(block) && owner == old(owner) && trace == old(trace) && NoneFree(owner)
      ensures r != 0 ==> r in old(owner) && old(owner)[r].Free? && owner == old(owner)[r := Held] && block[r] == ZeroBlock()
      ensures r != 0 ==> trace == old(trace) + [sb.Bblock(r), r]
      ensures r != 0 ==> forall b :: b in old(owner) && b < r ==> !old(owner)[b].Free?
      ensures r != 0 ==> forall b {:trigger block[b]} :: b in old(block) && b != r && b != sb.Bblock(r) ==> block[b] == old(block)[b]
    {
      var b := 0;
      while b < sb.size
        invariant b % BPB == 0
        invariant forall c :: c in owner && c < b ==> !owner[c].Free?
        invariant Sound() && block == old(block) && owner == old(owner) && trace == old(trace)
      {
        var bi := FindFree(b);
        if bi < BPB && b + bi < sb.size {
          Mark(b + bi);
          Bzero(b + bi);
          return b + bi;
        }
        b := b + BPB;
      }
      return 0;
    }

    /** The inner loop of `balloc`: the first clear bit for a block of the file system. */
    method FindFree(b: nat) returns (bi: nat)
      requires Sound() && b < sb.size && b % BPB == 0
      ensures bi <= BPB && (bi < BPB && b + bi < sb.size ==> b + bi in owner && owner[b + bi].Free?)
      ensures forall c :: c in owner && b <= c < b + bi ==> !owner[c].Free?
      ensures bi < BPB && sb.size <= b + bi ==> b + bi == sb.size
    {
      bi := 0;
      while bi < BPB && b + bi < sb.size
        invariant 0 <= bi <= BPB && b + bi <= sb.size
        invariant forall c :: c in owner && b <= c < b + bi ==> !owner[c].Free?
      {
        MetaBitmap(sb, b + bi);
        assert BitOk(sb, block, owner, b + bi) && BitOk(sb, block, owner, sb.Bblock(b + bi));
        assert sb.Bblock(b + bi) == sb.Bblock(b) && (b + bi) % BPB == bi;
        if !BlockBit(block[sb.Bblock(b)], bi) {
          return;
        }
        bi := bi + 1;
      }
    }

    method Mark(b: nat)
      requires Sound() && b in owner && owner[b].Free?
      modifies this`block, this`owner, this`trace
      ensures Sound() && owner == old(owner)[b := Held] && trace == old(trace) + [sb.Bblock(b)]
      ensures sb.Bblock(b) in old(block) && block == old(block)[sb.Bblock(b) := block[sb.Bblock(b)]]
      ensures b != sb.Bblock(b) && b != 0
    {
      assert BitOk(sb, block, owner, b);
      MetaBitmap(sb, b);
      ToggleOk(sb, block, inode, owner, b, true);
      var m := sb.Bblock(b);
      block := block[m := SetBlockBit(block[m], b % BPB, true)];
      owner := owner[b := Held];
      trace := trace + [m];
    }

    method Bzero(b: nat)
      requires Sound() && b in owner && owner[b].Held?
      modifies this`block, this`trace
      ensures Sound() && block == old(block)[b := ZeroBlock()] && trace == old(trace) + [b]
    {
      StoreOk(sb, block, inode, owner, b, ZeroBlock());
      block := block[b := ZeroBlock()];
      trace := trace + [b];
    }

    /** `bfree` of a block taken out of every inode; its bit is set, so the panic "freeing
        free block" is not reached. */
    method Bfree(b: nat, ghost ips: map<nat, Inode>)
      requires Ok(sb, block, ips, owner) && b in owner && owner[b].Held?
      modifies this`block, this`owner, this`trace
      ensures Ok(sb, block, ips, owner) && owner == old(owner)[b := Free] && trace == old(trace) + [sb.Bblock(b)]
      ensures OnlyMeta(old(block), old(owner), block) && LogsFreed(sb, old(owner), old(trace), owner, trace)
    {
      assert BitOk(sb, block, owner, b);
      MetaBitmap(sb, b);
      ToggleOk(sb, block, ips, owner, b, false);
      var m := sb.Bblock(b);
      assert BitOk(sb, block, owner, m);
      assert InUse(sb, block, b);
      FreedOne(sb, owner, trace, b);
      block := block[m := SetBlockBit(block[m], b % BPB, false)];
      owner := owner[b := Free];
      trace := trace + [m];
    }

    /** The direct half of `bmap`. */
    method BmapDirect(i: nat, bn: nat) returns (addr: nat, ghost bits: set<nat>)
      requires Valid() && i in inode && bn < NDIRECT
      modifies this`block, this`inode, this`owner, this`trace
      ensures Valid() && Looked(old(block), old(inode), old(owner), i, bn, addr)
      ensures Billed(old(block), old(inode), old(trace), i, bn, addr, bits)
    {
      assert InodeOk(sb, block, inode, owner, i);
      addr := inode[i].addrs[bn];
      bits := {};
      if addr == 0 {
        addr, bits := NewDirect(i, bn);
      }
    }

    method NewDirect(i: nat, bn: nat) returns (addr: nat, ghost bits: set<nat>)
      requires Valid() && i in inode && bn < NDIRECT && |inode[i].addrs| == NDIRECT + 1 && inode[i].addrs[bn] == 0
      modifies this`block, this`inode, this`owner, this`trace
      ensures Valid() && Looked(old(block), old(inode), old(owner), i, bn, addr)
      ensures Billed(old(block), old(inode), old(trace), i, bn, addr, bits)
    {
      addr := Balloc();
      bits := {};
      AllocFrame(sb, old(block), inode, old(owner), block, addr);
      if addr != 0 {
        bits := {sb.Bblock(addr)};
        AttachDirectOk(sb, block, inode, owner, i, bn, addr);
        DirectEntry(old(block), inode, block, i, bn, addr);
        inode := inode[i := inode[i].(addrs := inode[i].addrs[bn := addr])];
        owner := owner[addr := Data(i, bn)];
      }
    }

    /** The result of `bmap`: the block at index bn, old or new. */
    ghost predicate Looked(block0: map<nat, Block>, inode0: map<nat, Inode>, owner0: map<nat, Owner>, i: nat, bn: nat, addr: nat)
      reads this
    {
      && OnlyEntry(block0, inode0, block, inode, i, bn) && DataKept(block0, owner0, block, owner)
      && addr == Addr(block, inode[i], bn)
      && (addr == 0 ==> NoneFree(owner))
      && (addr != 0 && Addr(block0, inode0[i], bn) == 0 ==>
            addr in owner0 && owner0[addr].Free? && block[addr] == ZeroBlock())
      && (Addr(block0, inode0[i], bn) != 0 ==> block == block0 && inode == inode0 && owner == owner0)
    }

    /** What `bmap` logs: `bits` are bitmap blocks, one for each block it takes. */
    ghost predicate Billed(block0: map<nat, Block>, inode0: map<nat, Inode>, trace0: seq<nat>, i: nat, bn: nat, addr: nat, bits: set<nat>)
      reads this
    {
      && i in inode0 && i in inode
      && LogsOnly(trace0, trace, bits, addr, Ind(inode[i]))
      && |bits| <= (if Addr(block0, inode0[i], bn) == 0 && addr != 0 then 1 else 0)
                   + (if Ind(inode0[i]) == 0 && Ind(inode[i]) != 0 then 1 else 0)
      && (Ind(inode0[i]) != 0 ==> Ind(inode[i]) == Ind(inode0[i]))
      && (Addr(block0, inode0[i], bn) != 0 ==> trace == trace0)
    }

    /** The indirect block of inode i, allocated if necessary, or 0. */
    method EnsureIndirect(i: nat) returns (t: nat, ghost bits: set<nat>)
      requires Valid() && i in inode
      modifies this`block, this`inode, this`owner, this`trace
      ensures Valid() && OnlyEntry(old(block), old(inode), block, inode, i, -1) && DataKept(old(block), old(owner), block, owner)
      ensures t == Ind(inode[i]) && (t == 0 ==> NoneFree(owner))
      ensures Ind(old(inode)[i]) != 0 ==> block == old(block) && inode == old(inode) && owner == old(owner) && trace == old(trace)
      ensures LogsOnly(old(trace), trace, bits, t, t)
      ensures |bits| <= if Ind(old(inode)[i]) == 0 && t != 0 then 1 else 0
    {
      assert InodeOk(sb, block, inode, owner, i);
      t := inode[i].addrs[NDIRECT];
      bits := {};
      if t == 0 {
        t := Balloc();
        AllocFrame(sb, old(block), inode, old(owner), block, t);
        if t != 0 {
          bits := {sb.Bblock(t)};
          AttachIndirectOk(sb, block, inode, owner, i, t);
          inode := inode[i := inode[i].(addrs := inode[i].addrs[NDIRECT := t])];
          owner := owner[t := Indirect(i)];
        }
      }
    }

    /** The indirect half of `bmap`. */
    method BmapIndirect(i: nat, k: nat) returns (addr: nat, ghost bits: set<nat>)
      requires Valid() && i in inode && k < NINDIRECT
      modifies this`block, this`inode, this`owner, this`trace
      ensures Valid() && Looked(old(block), old(inode), old(owner), i, NDIRECT + k, addr)
      ensures Billed(old(block), old(inode), old(trace), i, NDIRECT + k, addr, bits)
    {
      var t;
      t, bits := EnsureIndirect(i);
      ghost var block1, inode1, owner1 := block, inode, owner;
      if t == 0 {
        return 0, bits;
      }
      ghost var more;
      addr, more := Entry(i, k);
      EntryTrans(old(block), old(inode), old(owner), block1, inode1, owner1, block, inode, owner, i, NDIRECT + k);
      bits := bits + more;
    }

    /** `a[bn]` in the indirect block, allocated if necessary. */
    method Entry(i: nat, k: nat) returns (addr: nat, ghost bits: set<nat>)
      requires Valid() && i in inode && k < NINDIRECT && Ind(inode[i]) != 0
      modifies this`block, this`owner, this`trace
      ensures Valid() && Looked(old(block), old(inode), old(owner), i, NDIRECT + k, addr)
      ensures Billed(old(block), old(inode), old(trace), i, NDIRECT + k, addr, bits)
    {
      assert InodeOk(sb, block, inode, owner, i);
      addr := Word(block[Ind(inode[i])], k);
      bits := {};
      if addr == 0 {
        addr, bits := NewEntry(i, k);
      }
    }

    method NewEntry(i: nat, k: nat) returns (addr: nat, ghost bits: set<nat>)
      requires Valid() && i in inode && k < NINDIRECT && Ind(inode[i]) != 0 && Addr(block, inode[i], NDIRECT + k) == 0
      modifies this`block, this`owner, this`trace
      ensures Valid() && Looked(old(block), old(inode), old(owner), i, NDIRECT + k, addr)
      ensures LogsOnly(old(trace), trace, bits, addr, Ind(inode[i])) && |bits| <= if addr != 0 then 1 else 0
    {
      assert InodeOk(sb, block, inode, owner, i);
      addr := Balloc();
      bits := {};
      AllocFrame(sb, old(block), inode, old(owner), block, addr);
      if addr != 0 {
        bits := {sb.Bblock(addr)};
        var t := Ind(inode[i]);
        AttachEntryOk(sb, block, inode, owner, i, k, addr);
        EntryFrame(sb, block, inode, owner, block[t := SetWord(block[t], k, addr)], i, t);
        block := block[t := SetWord(block[t], k, addr)];
        owner := owner[addr := Data(i, NDIRECT + k)];
        trace := trace + [t];
      }
    }

    /** `bmap`; beyond MAXFILE it would panic. */
    method Bmap(i: nat, bn: nat) returns (addr: nat, ghost bits: set<nat>)
      requires Valid() && i in inode && bn < MAXFILE
      modifies this`block, this`inode, this`owner, this`trace
      ensures Valid() && Looked(old(block), old(inode), old(owner), i, bn, addr)
      ensures Billed(old(block), old(inode), old(trace), i, bn, addr, bits)
    {
      if bn < NDIRECT {
        addr, bits := BmapDirect(i, bn);
      } else {
        addr, bits := BmapIndirect(i, bn - NDIRECT);
      }
    }

    /** `readi` into a destination of which the first `writable` bytes can be written: exactly the
        asked part of the file, or -1 if there is more of it; nothing is allocated. */
    method Readi(i: nat, off: nat, n: nat, writable: nat) returns (r: int, dst: seq<Byte>)
      requires Valid() && i in inode && off < WORD && n < WORD
      modifies this`block, this`inode, this`owner, this`trace
      ensures block == old(block) && inode == old(inode) && owner == old(owner) && trace == old(trace)
      ensures off > inode[i].size || off + n >= WORD ==> r == 0 && dst == []
      ensures off <= inode[i].size && off + n < WORD ==>
        var m := if off + n < inode[i].size then n else inode[i].size - off;
        && r == (if m <= writable then m else -1)
        && dst == Content(block, inode[i])[off..off + if m <= writable then m else writable]
    {
      if off > inode[i].size || (off + n) % WORD < off {
        return 0, [];
      }
      r, dst := ReadLoop(i, off, if off + n > inode[i].size then inode[i].size - off else n, writable);
    }

    /** The loop of `readi`. */
    method ReadLoop(i: nat, off: nat, n: nat, writable: nat) returns (r: int, dst: seq<Byte>)
      requires Valid() && i in inode && off + n <= inode[i].size
      modifies this`block, this`inode, this`owner, this`trace
      ensures block == old(block) && inode == old(inode) && owner == old(owner) && trace == old(trace)
      ensures r == (if n <= writable then n else -1)
      ensures dst == Content(block, inode[i])[off..off + if n <= writable then n else writable]
    {
      dst := [];
      var o, tot := off, 0;
      ghost var c := Content(block, inode[i]);
      while tot < n
        invariant 0 <= tot <= n && o == off + tot && tot <= writable
        invariant Valid() && block == old(block) && inode == old(inode) && owner == old(owner) && trace == old(trace)
        invariant dst == c[off..o]
      {
        var data := ReadBlock(i, o, n - tot);
        if data == [] {
          break;
        }
        if writable < tot + |data| {
          JoinSlices(c, off, o, |data|, writable - tot);
          dst := dst + data[..writable - tot];
          return -1, dst;
        }
        JoinSlices(c, off, o, |data|, |data|);
        dst := dst + data;
        tot := tot + |data|;
        o := o + |data|;
      }
      r := tot;
    }

    /** One turn of the loop in `readi`: the next bytes, as many as are left in the block. */
    method ReadBlock(i: nat, o: nat, left: nat) returns (data: seq<Byte>)
      requires Valid() && i in inode && 0 < left && o + left <= inode[i].size
      modifies this`block, this`inode, this`owner, this`trace
      ensures block == old(block) && inode == old(inode) && owner == old(owner) && trace == old(trace)
      ensures |data| == if left < BSIZE - o % BSIZE then left else BSIZE - o % BSIZE
      ensures data == Content(block, inode[i])[o..o + |data|]
    {
      assert InodeOk(sb, block, inode, owner, i) && Mapped(block, inode[i], o / BSIZE) && MapOk(block, inode, owner, i, o / BSIZE);
      var addr, _ := Bmap(i, o / BSIZE);
      if addr == 0 {
        return [];
      }
      var m := if left < BSIZE - o % BSIZE then left else BSIZE - o % BSIZE;
      Chunk(block, inode[i], o, m);
      data := block[addr][o % BSIZE..o % BSIZE + m];
    }

    /** One turn of the loop in `writei`: all of `data` goes to offset o, within one block; or
        the disk is full; or only the first `avail` bytes can be read, and these stay in the
        buffer, which is not logged. */
    method WriteBlock(i: nat, o: nat, data: seq<Byte>, avail: nat) returns (ok: bool, ghost put: nat, ghost addr: nat, ghost bits: set<nat>)
      requires Valid() && i in inode && o / BSIZE < MAXFILE && o % BSIZE + |data| <= BSIZE
      modifies this`block, this`inode, this`owner, this`trace
      ensures Valid() && put <= |data| && Wrote(old(block), old(inode), block, inode, i, o, data[..put])
      ensures if addr == 0 then !ok && put == 0 && NoneFree(owner)
              else if avail < |data| then !ok && put == avail else ok && put == |data|
      ensures addr != 0 ==> Addr(block, inode[i], o / BSIZE) != 0
      ensures !ok && Addr(old(block), old(inode)[i], o / BSIZE) != 0 ==> trace == old(trace)
      ensures LogsOnly(old(trace), trace, bits, addr, Ind(inode[i]))
      ensures |bits| <= (if Addr(old(block), old(inode)[i], o / BSIZE) == 0 && addr != 0 then 1 else 0)
                        + (if Ind(old(inode)[i]) == 0 && Ind(inode[i]) != 0 then 1 else 0)
      ensures Ind(old(inode)[i]) != 0 ==> Ind(inode[i]) == Ind(old(inode)[i])
    {
      var a;
      a, bits := Bmap(i, o / BSIZE);
      addr, put := a, 0;
      LookedBytes(sb, old(block), old(inode), old(owner), block, inode, owner, i, o, a);
      if a == 0 {
        return false, 0, 0, bits;
      }
      ghost var block1 := block;
      ok := |data| <= avail;
      var copied := if ok then data else data[..avail];
      put := |copied|;
      CopyIn(i, o, copied, a);
      WroteThen(old(block), old(inode), block1, inode, block, inode, i, o, [], copied);
      assert [] + copied == copied == data[..put];
      if ok {
        trace := trace + [a];
      }
    }

    /** The copy into the buffer. */
    method CopyIn(i: nat, o: nat, data: seq<Byte>, a: nat)
      requires Valid() && i in inode && o / BSIZE < MAXFILE && o % BSIZE + |data| <= BSIZE
      requires a == Addr(block, inode[i], o / BSIZE) && a != 0
      modifies this`block
      ensures Valid() && Wrote(old(block), inode, block, inode, i, o, data) && Addr(block, inode[i], o / BSIZE) == a
    {
      assert InodeOk(sb, block, inode, owner, i) && MapOk(block, inode, owner, i, o / BSIZE);
      StoreOk(sb, block, inode, owner, a, Patch(block[a], o % BSIZE, data));
      PatchBytes(sb, block, inode, owner, i, o, data, a);
      AddrFrame(sb, block, inode, owner, block[a := Patch(block[a], o % BSIZE, data)], i, o / BSIZE);
      block := block[a := Patch(block[a], o % BSIZE, data)];
    }

    /** `writei` from a source of which the first `readable` bytes can be read: it acknowledges r
        bytes, touches no other file, and keeps the inode on disk up to date.  Bytes beyond r
        that were copied before a failure, up to `reach`, show in the part of the file that was
        there before. */
    method Writei(i: nat, off: nat, src: seq<Byte>, readable: nat) returns (r: int, ghost reach: nat)
      requires Valid() && i in inode && off < WORD && |src| < WORD
      modifies this`block, this`inode, this`dinode, this`owner, this`trace
      ensures Valid() && inode.Keys == old(inode).Keys
      ensures r == -1 <==> off > old(inode)[i].size || off + |src| > MAXFILE * BSIZE
      ensures r == -1 ==> block == old(block) && inode == old(inode) && owner == old(owner) && trace == old(trace) && dinode == old(dinode)
      ensures r == -1 ==> reach == 0
      ensures r != -1 ==> 0 <= r && Stopped(owner, off, |src|, readable, r, reach)
      ensures r != -1 ==> Content(block, inode[i]) == After(Content(old(block), old(inode)[i]), off, src[..reach], r)
      ensures forall j {:trigger inode[j]} :: j in inode && j != i ==>
        inode[j] == old(inode)[j] && Content(block, inode[j]) == Content(old(block), old(inode)[j])
      ensures r != -1 ==> dinode == old(dinode)[i := inode[i]]
      ensures r != -1 && |src| <= MAXCHUNK && old(trace) == [] ==> Paced(trace)
    {
      reach := 0;
      if off > inode[i].size || (off + |src|) % WORD < off {
        return -1, 0;
      }
      if off + |src| > MAXFILE * BSIZE {
        return -1, 0;
      }
      ghost var block0, inode0, owner0 := block, inode, owner;
      ghost var end;
      r, reach, end := WriteLoop(i, off, src, readable);
      FinishSize(i, off, r, reach, src, block0, inode0, owner0);
      ghost var before := trace;
      Iupdate(i);
      assert trace[..|trace| - 1] == before;
      if |src| <= MAXCHUNK && old(trace) == [] {
        BillBound(Ind(inode0[i]), Ind(inode[i]), before, off, end, |src|);
      }
    }

    /** The loop of `writei`. */
    method WriteLoop(i: nat, off: nat, src: seq<Byte>, readable: nat) returns (tot: nat, ghost reach: nat, ghost end: nat)
      requires Valid() && i in inode && off <= inode[i].size && off + |src| <= MAXFILE * BSIZE
      modifies this`block, this`inode, this`owner, this`trace
      ensures Written(i, off, src, readable, tot, reach, end, old(block), old(inode), old(trace))
    {
      assert InodeOk(sb, block, inode, owner, i) && (off % BSIZE != 0 ==> Mapped(block, inode[i], off / BSIZE));
      assert BillOf(Ind(inode[i]), Ind(inode[i]), trace, trace, off, off, |src|, 0, {}, {}) && src[..0] == [];
      tot, reach, end := 0, 0, off;
      var o, more := off, true;
      while more && tot < |src|
        invariant o == off + tot && tot <= |src|
        invariant if more then Writing(i, off, src, readable, tot, old(block), old(inode), old(trace))
                  else Written(i, off, src, readable, tot, reach, end, old(block), old(inode), old(trace))
        decreases |src| - tot, more
      {
        var m;
        more, m, reach, end := WriteTurn(i, off, src, readable, tot, old(block), old(inode), old(trace));
        if more {
          tot := tot + m;
          o := o + m;
        }
      }
      if more {
        reach, end := tot, o;
      }
    }

    /** In the loop of `writei`: tot bytes are written and logged. */
    ghost predicate Writing(i: nat, off: nat, src: seq<Byte>, readable: nat, tot: nat,
                            block0: map<nat, Block>, inode0: map<nat, Inode>, trace0: seq<nat>)
      reads this
    {
      && Valid() && i in inode0 && i in inode && StartsMapped(block, inode[i], off, tot) && tot <= |src| && tot <= readable
      && OnEdge(off, |src|, tot) && Wrote(block0, inode0, block, inode, i, off, src[..tot])
      && Bill(Ind(inode0[i]), Ind(inode[i]), trace0, trace, off, off + tot, |src|)
    }

    /** At its end: `reach` bytes are in the buffers. */
    ghost predicate Written(i: nat, off: nat, src: seq<Byte>, readable: nat, tot: nat, reach: nat, end: nat,
                            block0: map<nat, Block>, inode0: map<nat, Inode>, trace0: seq<nat>)
      reads this
    {
      && Valid() && i in inode0 && i in inode && Stopped(owner, off, |src|, readable, tot, reach)
      && Wrote(block0, inode0, block, inode, i, off, src[..reach])
      && Bill(Ind(inode0[i]), Ind(inode[i]), trace0, trace, off, end, |src|)
    }

    /** One turn of the loop in `writei`; it fails when the disk is full or the source ends. */
    method WriteTurn(i: nat, off: nat, src: seq<Byte>, readable: nat, tot: nat,
                     ghost block0: map<nat, Block>, ghost inode0: map<nat, Inode>, ghost trace0: seq<nat>)
      returns (ok: bool, m: nat, ghost reach: nat, ghost end: nat)
      requires tot < |src| && off + |src| <= MAXFILE * BSIZE && Writing(i, off, src, readable, tot, block0, inode0, trace0)
      modifies this`block, this`inode, this`owner, this`trace
      ensures ok ==> 0 < m <= |src| - tot && Writing(i, off, src, readable, tot + m, block0, inode0, trace0)
      ensures !ok ==> Written(i, off, src, readable, tot, reach, end, block0, inode0, trace0)
    {
      ghost var put;
      m := Step(off + tot, |src| - tot);
      ok, put, end := StoreTurn(i, off, src, tot, m, readable - tot, block0, inode0, trace0);
      reach := tot + put;
      if ok {
        NextEdge(off, |src|, tot);
      } else {
        Stops(owner, off, |src|, readable, tot, put);
      }
    }

    method StoreTurn(i: nat, off: nat, src: seq<Byte>, tot: nat, m: nat, avail: nat,
                     ghost block0: map<nat, Block>, ghost inode0: map<nat, Inode>, ghost trace0: seq<nat>)
      returns (ok: bool, ghost put: nat, ghost end: nat)
      requires tot < |src| && off + |src| <= MAXFILE * BSIZE && m == Step(off + tot, |src| - tot)
      requires Valid() && i in inode0 && i in inode && StartsMapped(block, inode[i], off, tot)
      requires Wrote(block0, inode0, block, inode, i, off, src[..tot])
      requires Bill(Ind(inode0[i]), Ind(inode[i]), trace0, trace, off, off + tot, |src|)
      modifies this`block, this`inode, this`owner, this`trace
      ensures Valid() && i in inode && put <= m && Wrote(block0, inode0, block, inode, i, off, src[..tot + put])
      ensures Bill(Ind(inode0[i]), Ind(inode[i]), trace0, trace, off, end, |src|) && (ok ==> end == off + tot + m)
      ensures if ok then put == m <= avail else (put == 0 && NoneFree(owner)) || put == avail < m
    {
      ghost var block1, inode1, trace1 := block, inode, trace;
      ghost var addr, more;
      var o := off + tot;
      ok, put, addr, more := WriteBlock(i, o, src[tot..tot + m], avail);
      JoinSlices(src, 0, tot, m, put);
      WroteThen(block0, inode0, block1, inode1, block, inode, i, off, src[..tot], src[tot..tot + m][..put]);
      end := if addr == 0 then o else o + m;
      BillMore(Ind(inode0[i]), Ind(inode1[i]), Ind(inode[i]), trace0, trace1, trace, off, o, |src|, addr, more,
               Addr(block1, inode1[i], o / BSIZE) == 0 && addr != 0);
    }

    /** The end of `writei`: the new size. */
    method FinishSize(i: nat, off: nat, tot: nat, ghost reach: nat, ghost src: seq<Byte>,
                      ghost block0: map<nat, Block>, ghost inode0: map<nat, Inode>, ghost owner0: map<nat, Owner>)
      requires Valid() && Ok(sb, block0, inode0, owner0) && i in inode0 && off <= inode0[i].size && tot <= reach <= |src| && off + |src| <= MAXFILE * BSIZE
      requires Wrote(block0, inode0, block, inode, i, off, src[..reach])
      modifies this`inode
      ensures Valid() && inode.Keys == inode0.Keys && Ind(inode[i]) == Ind(old(inode)[i])
      ensures Content(block, inode[i]) == After(Content(block0, inode0[i]), off, src[..reach], tot)
      ensures forall j {:trigger inode[j]} :: j in inode && j != i ==>
        inode[j] == inode0[j] && Content(block, inode[j]) == Content(block0, inode0[j])
    {
      assert inode[i].size == inode0[i].size;
      WroteSize(sb, block0, inode0, owner0, block, inode, i, off, src[..reach]);
      if off + tot > inode[i].size {
        ResizeOk(sb, block, inode, owner, i, off + tot);
        inode := inode[i := inode[i].(size := off + tot)];
      }
      TornContent(sb, block0, inode0, owner0, block, old(inode), i, off, src[..reach], tot);
    }

    /** `iupdate` */
    method Iupdate(i: nat)
      requires i in inode
      modifies this`dinode, this`trace
      ensures dinode == old(dinode)[i := inode[i]] && trace == old(trace) + [sb.Iblock(i)]
    {
      dinode := dinode[i := inode[i]];
      trace := trace + [sb.Iblock(i)];
    }

    /** `itrunc`: exactly the blocks of the inode go back to the free map; the file is empty
        and no other file changes. */
    method Itrunc(i: nat)
      requires Valid() && i in inode
      modifies this`block, this`inode, this`dinode, this`owner, this`trace
      ensures Valid() && inode.Keys == old(inode).Keys && Content(block, inode[i]) == []
      ensures forall n: nat :: Addr(block, inode[i], n) == 0
      ensures dinode == old(dinode)[i := inode[i]]
      ensures owner.Keys == old(owner).Keys
      ensures forall b {:trigger owner[b]} :: b in owner ==> owner[b] == if Mine(old(owner)[b], i) then Free else old(owner)[b]
      ensures forall j {:trigger inode[j]} :: j in inode && j != i ==>
        inode[j] == old(inode)[j] && Content(block, inode[j]) == Content(old(block), old(inode)[j])
      ensures trace != [] && trace[|trace| - 1] == sb.Iblock(i) && LogsFreed(sb, old(owner), old(trace), owner, trace[..|trace| - 1])
      ensures old(trace) == [] ==> (Paced(trace) <==> |BitmapsOf(sb, old(owner), i)| < MAXOPBLOCKS)
    {
      ghost var block0, inode0, owner0 := block, inode, owner;
      ShadowOk(sb, block, inode, owner, i);
      FreeAll(i);
      inode := inode[i := inode[i].(size := 0)];
      MetaContent(sb, block0, inode0, owner0, block);
      ghost var before := trace;
      Iupdate(i);
      assert trace[..|trace| - 1] == before;
      if old(trace) == [] {
        TruncPaced(sb, owner0, owner, i, before, trace);
      }
    }

    /** The two loops of `itrunc`. */
    method FreeAll(i: nat)
      requires i in inode && Ok(sb, block, Shadow(inode, i), owner) && NoneHeld(owner)
      modifies this`block, this`inode, this`owner, this`trace
      ensures inode.Keys == old(inode).Keys && Ok(sb, block, Shadow(inode, i), owner) && OnlyMeta(old(block), old(owner), block)
      ensures owner.Keys == old(owner).Keys && NoneHeld(owner)
      ensures forall b {:trigger owner[b]} :: b in owner ==> owner[b] == if Mine(old(owner)[b], i) then Free else old(owner)[b]
      ensures forall j {:trigger inode[j]} :: j in inode && j != i ==> inode[j] == old(inode)[j]
      ensures |inode[i].addrs| == NDIRECT + 1 && forall n :: 0 <= n <= NDIRECT ==> inode[i].addrs[n] == 0
      ensures LogsFreed(sb, old(owner), old(trace), owner, trace)
    {
      FreeDirect(i);
      ghost var owner1, trace1 := owner, trace;
      FreeIndirect(i);
      FreedThen(sb, old(owner), old(trace), owner1, trace1, owner, trace);
      AllCut(old(owner), owner1, owner, i);
    }

    /** One turn of the first loop in `itrunc`, for a mapped block. */
    method FreeOne(i: nat, k: nat)
      requires i in inode && Ok(sb, block, Shadow(inode, i), owner) && k < NDIRECT && |inode[i].addrs| == NDIRECT + 1
      requires inode[i].addrs[k] != 0
      modifies this`block, this`inode, this`owner, this`trace
      ensures inode == old(inode)[i := old(inode)[i].(addrs := old(inode)[i].addrs[k := 0])]
      ensures Ok(sb, block, Shadow(inode, i), owner) && OnlyMeta(old(block), old(owner), block)
      ensures var a := old(inode)[i].addrs[k]; a in old(owner) && old(owner)[a] == Data(i, k) && owner == old(owner)[a := Free]
      ensures LogsFreed(sb, old(owner), old(trace), owner, trace)
    {
      var a := inode[i].addrs[k];
      ghost var ips := Shadow(inode, i);
      DetachDirectOk(sb, block, ips, owner, i, k);
      ips := ips[i := ips[i].(addrs := ips[i].addrs[k := 0])];
      owner := owner[a := Held];
      Bfree(a, ips);
      inode := inode[i := inode[i].(addrs := inode[i].addrs[k := 0])];
      assert Shadow(inode, i) == ips;
      assert owner == old(owner)[a := Free];
      FreedOne(sb, old(owner), old(trace), a);
    }

    /** The first loop of `itrunc`.  The size is set last, so meanwhile the inode is sound
        with its size taken as 0. */
    method FreeDirect(i: nat)
      requires i in inode && Ok(sb, block, Shadow(inode, i), owner)
      modifies this`block, this`inode, this`owner, this`trace
      ensures i in inode && Ok(sb, block, Shadow(inode, i), owner) && OnlyMeta(old(block), old(owner), block)
      ensures Cleared(old(inode), inode, i, NDIRECT) && owner.Keys == old(owner).Keys
      ensures forall b {:trigger owner[b]} :: b in owner ==> owner[b] == CutDirect(old(owner)[b], i, NDIRECT)
      ensures LogsFreed(sb, old(owner), old(trace), owner, trace)
    {
      assert InodeOk(sb, block, Shadow(inode, i), owner, i);
      FreedNone(sb, owner, trace, owner);
      var k := 0;
      while k < NDIRECT
        invariant 0 <= k <= NDIRECT && Cleared(old(inode), inode, i, k)
        invariant Ok(sb, block, Shadow(inode, i), owner) && OnlyMeta(old(block), old(owner), block) && owner.Keys == old(owner).Keys
        invariant forall b {:trigger owner[b]} :: b in owner ==> owner[b] == CutDirect(old(owner)[b], i, k)
        invariant LogsFreed(sb, old(owner), old(trace), owner, trace)
      {
        FreeDirectAt(i, k, old(block), old(inode), old(owner), old(trace));
        k := k + 1;
      }
    }

    /** One turn of the first loop in `itrunc`. */
    method FreeDirectAt(i: nat, k: nat, ghost block0: map<nat, Block>, ghost inode0: map<nat, Inode>, ghost owner0: map<nat, Owner>, ghost trace0: seq<nat>)
      requires LogsFreed(sb, owner0, trace0, owner, trace)
      requires k < NDIRECT && Cleared(inode0, inode, i, k)
      requires Ok(sb, block, Shadow(inode, i), owner) && OnlyMeta(block0, owner0, block) && owner.Keys == owner0.Keys
      requires forall b {:trigger owner[b]} :: b in owner ==> owner[b] == CutDirect(owner0[b], i, k)
      modifies this`block, this`inode, this`owner, this`trace
      ensures Cleared(inode0, inode, i, k + 1)
      ensures Ok(sb, block, Shadow(inode, i), owner) && OnlyMeta(block0, owner0, block) && owner.Keys == owner0.Keys
      ensures forall b {:trigger owner[b]} :: b in owner ==> owner[b] == CutDirect(owner0[b], i, k + 1)
      ensures LogsFreed(sb, owner0, trace0, owner, trace)
    {
      OwnerAt(sb, block, Shadow(inode, i), owner, i, k);
      if inode[i].addrs[k] != 0 {
        ghost var owner1, trace1 := owner, trace;
        FreeOne(i, k);
        FreedThen(sb, owner0, trace0, owner1, trace1, owner, trace);
      }
    }

    /** The second half of `itrunc`: the indirect block and what it lists. */
    method FreeIndirect(i: nat)
      requires i in inode && Ok(sb, block, Shadow(inode, i), owner) && |inode[i].addrs| == NDIRECT + 1 && NoneHeld(owner)
      modifies this`block, this`inode, this`owner, this`trace
      ensures inode == old(inode)[i := old(inode)[i].(addrs := old(inode)[i].addrs[NDIRECT := 0])]
      ensures Ok(sb, block, Shadow(inode, i), owner) && OnlyMeta(old(block), old(owner), block) && owner.Keys == old(owner).Keys
      ensures forall b {:trigger owner[b]} :: b in owner ==> owner[b] == if Listed(old(owner)[b], i) then Free else old(owner)[b]
      ensures LogsFreed(sb, old(owner), old(trace), owner, trace)
    {
      var t := inode[i].addrs[NDIRECT];
      ghost var ips := Shadow(inode, i);
      if t == 0 {
        NoListed(sb, block, ips, owner, i);
        FreedNone(sb, owner, trace, owner);
        assert inode[i].(addrs := inode[i].addrs[NDIRECT := 0]) == inode[i];
        return;
      }
      FreeTree(i, t, ips);
      inode := inode[i := inode[i].(addrs := inode[i].addrs[NDIRECT := 0])];
      assert Shadow(inode, i) == ips[i := ips[i].(addrs := ips[i].addrs[NDIRECT := 0])];
    }

    method FreeTree(i: nat, t: nat, ghost ips: map<nat, Inode>)
      requires i in ips && Ok(sb, block, ips, owner) && ips[i].size == 0 && |ips[i].addrs| == NDIRECT + 1
      requires t == ips[i].addrs[NDIRECT] && t != 0
      modifies this`block, this`owner, this`trace
      ensures Ok(sb, block, ips[i := ips[i].(addrs := ips[i].addrs[NDIRECT := 0])], owner)
      ensures OnlyMeta(old(block), old(owner), block) && owner.Keys == old(owner).Keys
      ensures forall b {:trigger owner[b]} :: b in owner ==> owner[b] == if Listed(old(owner)[b], i) then Free else old(owner)[b]
      ensures LogsFreed(sb, old(owner), old(trace), owner, trace)
    {
      ghost var ips' := ips[i := ips[i].(addrs := ips[i].addrs[NDIRECT := 0])];
      ListedBlocks(sb, block, ips, owner, i);
      FreeBelow(i, t, ips);
      ghost var owner2, trace2 := owner, trace;
      Bfree(t, ips');
      FreedThen(sb, old(owner), old(trace), owner2, trace2, owner, trace);
    }

    /** The indirect block counts no longer, and what it lists is freed. */
    method FreeBelow(i: nat, t: nat, ghost ips: map<nat, Inode>)
      requires i in ips && Ok(sb, block, ips, owner) && ips[i].size == 0 && |ips[i].addrs| == NDIRECT + 1
      requires t == ips[i].addrs[NDIRECT] && t != 0
      modifies this`block, this`owner, this`trace
      ensures Ok(sb, block, ips[i := ips[i].(addrs := ips[i].addrs[NDIRECT := 0])], owner)
      ensures OnlyMeta(old(block), old(owner), block) && owner.Keys == old(owner).Keys
      ensures forall b {:trigger owner[b]} :: b in owner ==> owner[b] == CutListed(old(owner)[b], i, NINDIRECT)
      ensures LogsFreed(sb, old(owner), old(trace), owner, trace)
    {
      ghost var block0, owner0 := block, owner;
      ListedBlocks(sb, block0, ips, owner0, i);
      forall j | 0 <= j < NINDIRECT ensures EntryOk(block0, owner0, i, t, j) {
        OwnerAt(sb, block0, ips, owner0, i, NDIRECT + j);
      }
      DetachIndirectOk(sb, block, ips, owner, i);
      owner := Unlisted(owner, i);
      FreedNone(sb, owner0, trace, owner);
      ghost var owner1, trace1 := owner, trace;
      FreeListed(i, t, ips[i := ips[i].(addrs := ips[i].addrs[NDIRECT := 0])], block0, owner0);
      FreedThen(sb, owner0, trace1, owner1, trace1, owner, trace);
    }

    /** The second loop of `itrunc`. */
    method FreeListed(i: nat, t: nat, ghost ips: map<nat, Inode>, ghost block0: map<nat, Block>, ghost owner0: map<nat, Owner>)
      requires forall j {:trigger EntryOk(block0, owner0, i, t, j)} :: 0 <= j < NINDIRECT ==> EntryOk(block0, owner0, i, t, j)
      requires Ok(sb, block, ips, owner) && block == block0 && owner == Unlisted(owner0, i)
      requires t in owner0 && owner0[t] == Indirect(i)
      modifies this`block, this`owner, this`trace
      ensures Ok(sb, block, ips, owner) && OnlyMeta(block0, owner0, block) && owner.Keys == owner0.Keys
      ensures forall b {:trigger owner[b]} :: b in owner ==> owner[b] == CutListed(owner0[b], i, NINDIRECT)
      ensures LogsFreed(sb, old(owner), old(trace), owner, trace)
    {
      FreedNone(sb, owner, trace, owner);
      var j := 0;
      while j < NINDIRECT
        invariant 0 <= j <= NINDIRECT
        invariant Ok(sb, block, ips, owner) && OnlyMeta(block0, owner0, block) && owner.Keys == owner0.Keys
        invariant forall b {:trigger owner[b]} :: b in owner ==> owner[b] == CutListed(owner0[b], i, j)
        invariant LogsFreed(sb, old(owner), old(trace), owner, trace)
      {
        assert EntryOk(block0, owner0, i, t, j);
        ghost var owner1, trace1 := owner, trace;
        FreeEntry(i, t, j, ips, block0, owner0);
        FreedThen(sb, old(owner), old(trace), owner1, trace1, owner, trace);
        j := j + 1;
      }
    }

    /** One turn of the second loop in `itrunc`. */
    method FreeEntry(i: nat, t: nat, j: nat, ghost ips: map<nat, Inode>, ghost block0: map<nat, Block>, ghost owner0: map<nat, Owner>)
      requires j < NINDIRECT && EntryOk(block0, owner0, i, t, j) && t in owner0 && owner0[t] == Indirect(i)
      requires Ok(sb, block, ips, owner) && OnlyMeta(block0, owner0, block) && owner.Keys == owner0.Keys
      requires forall b {:trigger owner[b]} :: b in owner ==> owner[b] == CutListed(owner0[b], i, j)
      modifies this`block, this`owner, this`trace
      ensures Ok(sb, block, ips, owner) && OnlyMeta(block0, owner0, block) && owner.Keys == owner0.Keys
      ensures forall b {:trigger owner[b]} :: b in owner ==> owner[b] == CutListed(owner0[b], i, j + 1)
      ensures LogsFreed(sb, old(owner), old(trace), owner, trace)
    {
      assert block[t] == block0[t];
      FreedNone(sb, owner, trace, owner);
      var a := Word(block[t], j);
      if a != 0 {
        Bfree(a, ips);
      }
    }

    // ---- kernel/file.c ----

    /** `begin_op` and `end_op`, as far as the log reservation goes. */
    method BeginOp()
      modifies this`trace
      ensures trace == []
    {
      trace := [];
    }

    method EndOp()
      requires Paced(trace) || trace == []
    {
    }

    /** `data` was written to file i at off, and `keep` bytes of it were acknowledged; the file
        and all others are otherwise as they were. */
    ghost predicate Progress(block0: map<nat, Block>, inode0: map<nat, Inode>, i: nat, off: nat, data: seq<Byte>, keep: nat)
      reads this
    {
      && inode.Keys == inode0.Keys && i in inode0 && keep <= |data| && (data != [] ==> off <= inode0[i].size)
      && Content(block, inode[i]) == After(Content(block0, inode0[i]), off, data, keep)
      && (forall j {:trigger inode[j]} :: j in inode && j != i ==>
            inode[j] == inode0[j] && Content(block, inode[j]) == Content(block0, inode0[j]))
    }

    ghost predicate Upto(block0: map<nat, Block>, inode0: map<nat, Inode>, i: nat, off: nat, src: seq<Byte>, reach: nat, keep: nat)
      reads this
    {
      Valid() && reach <= |src| && Progress(block0, inode0, i, off, src[..reach], keep)
    }

    /** One turn of the loop in `filewrite`, with its operation on the log. */
    method WriteChunk(f: OpenFile, data: seq<Byte>, readable: nat, ghost block0: map<nat, Block>, ghost inode0: map<nat, Inode>,
                      ghost off: nat, ghost done: seq<Byte>)
      returns (r: int, ghost reach: nat)
      requires Valid() && Progress(block0, inode0, f.ip, off, done, |done|) && f.off == off + |done| && off < WORD && |data| <= MAXCHUNK
      modifies this`block, this`inode, this`dinode, this`owner, this`trace, f`off
      ensures Valid() && -1 <= r && f.off == old(f.off) + Max(0, r)
      ensures if r == -1 then reach == 0 && CannotWrite(inode0[f.ip].size, off, old(f.off), |data|)
              else Stopped(owner, old(f.off), |data|, readable, r, reach)
      ensures reach <= |data| && Progress(block0, inode0, f.ip, off, done + data[..reach], |done| + Max(0, r))
    {
      assert InodeOk(sb, block, inode, owner, f.ip);
      ghost var c, c1 := Content(block0, inode0[f.ip]), Content(block, inode[f.ip]);
      assert c1 == After(c, off, done, |done|) && |c1| == inode[f.ip].size;
      BeginOp();
      r, reach := Writei(f.ip, f.off, data, readable);
      EndOp();
      ChunkProgress(c, off, done, data, reach, r, Content(block, inode[f.ip]));
      if 0 < r {
        f.off := f.off + r;
      }
    }

    /** In the loop of `filewrite`: i bytes are written and acknowledged. */
    ghost predicate Filing(f: OpenFile, src: seq<Byte>, n: nat, i: nat, block0: map<nat, Block>, inode0: map<nat, Inode>, off: nat)
      reads this, f
    {
      i <= n <= |src| && (i == n || ChunkStart(i)) && f.off == off + i && Upto(block0, inode0, f.ip, off, src, i, i)
    }

    /** At its end: `done` bytes are acknowledged, and `reach` are in the buffers.  If that is not
        all, `start` is where the last chunk began. */
    ghost predicate Filed(f: OpenFile, src: seq<Byte>, n: nat, readable: nat, start: nat, done: nat, reach: nat,
                          block0: map<nat, Block>, inode0: map<nat, Inode>, off: nat)
      reads this, f
    {
      && done <= reach <= n <= |src| && f.off == off + done && Upto(block0, inode0, f.ip, off, src, reach, done) && f.ip in inode0
      && (done < n ==> LastChunk(owner, inode0[f.ip].size, off, n, readable, start, done, reach))
    }

    lemma StartFiling(f: OpenFile, src: seq<Byte>, n: nat)
      requires Valid() && f.ip in inode && n <= |src|
      ensures Filing(f, src, n, 0, block, inode, f.off)
    {
      assert src[..0] == [] && IsChunk(0, 0);
    }

    /** The next chunk of `filewrite`. */
    method ChunkTurn(f: OpenFile, src: seq<Byte>, i: nat, n: nat, readable: nat, ghost block0: map<nat, Block>, ghost inode0: map<nat, Inode>, ghost off: nat)
      returns (ok: bool, r: int, ghost done: nat, ghost reach: nat)
      requires i < n && off < WORD && Filing(f, src, n, i, block0, inode0, off)
      modifies this`block, this`inode, this`dinode, this`owner, this`trace, f`off
      ensures ok ==> 0 < r && Filing(f, src, n, i + r, block0, inode0, off)
      ensures !ok ==> done < n && Filed(f, src, n, readable, i, done, reach, block0, inode0, off)
    {
      var n1 := ChunkOf(n - i);
      ghost var put;
      r, put := ChunkStore(f, src, i, n1, Remaining(readable, i), block0, inode0, off);
      ok, done, reach := r == n1, i + Max(0, r), i + put;
      if ok {
        ChunkNext(owner, off + i, i, n, Remaining(readable, i), put);
      } else {
        ChunkLast(owner, inode0[f.ip].size, off, n, readable, i, r, put);
      }
    }

    method ChunkStore(f: OpenFile, src: seq<Byte>, i: nat, n1: nat, avail: nat, ghost block0: map<nat, Block>, ghost inode0: map<nat, Inode>, ghost off: nat)
      returns (r: int, ghost put: nat)
      requires i + n1 <= |src| && n1 <= MAXCHUNK && off < WORD && f.off == off + i && Upto(block0, inode0, f.ip, off, src, i, i)
      modifies this`block, this`inode, this`dinode, this`owner, this`trace, f`off
      ensures f.ip in inode0 && -1 <= r && f.off == off + i + Max(0, r)
      ensures if r == -1 then put == 0 && CannotWrite(inode0[f.ip].size, off, off + i, n1) else Stopped(owner, off + i, n1, avail, r, put)
      ensures put <= n1 && Upto(block0, inode0, f.ip, off, src, i + put, i + Max(0, r))
    {
      r, put := WriteChunk(f, src[i..i + n1], avail, block0, inode0, off, src[..i]);
      JoinSlices(src, 0, i, n1, put);
    }

    /** `filewrite` on an inode, from a source of which the first `readable` bytes can be read: in
        chunks, each an operation within its log reservation, it writes the bytes and moves the
        offset past those that were acknowledged. */
    method FileWrite(f: OpenFile, src: seq<Byte>, n: int, readable: nat) returns (ret: int, ghost start: nat, ghost done: nat, ghost reach: nat)
      requires Valid() && f.ip in inode && f.off < WORD && n <= |src|
      modifies this`block, this`inode, this`dinode, this`owner, this`trace, f`off
      ensures Filed(f, src, Max(0, n), readable, start, done, reach, old(block), old(inode), old(f.off))
      ensures ret == (if done == n then n else -1)
    {
      var i := 0;
      ghost var m, block0, inode0, off := Max(0, n), block, inode, f.off;
      StartFiling(f, src, m);
      while i < n
        invariant Filing(f, src, m, i, block0, inode0, off)
      {
        var ok, r;
        start := i;
        ok, r, done, reach := ChunkTurn(f, src, i, n, readable, block0, inode0, off);
        if !ok {
          return -1, start, done, reach;
        }
        i := i + r;
      }
      start, done, reach := i, i, i;
      ret := if i == n then n else -1;
    }
  }

  /** The chunk at `start` was refused, or it came to a stop. */
  ghost predicate LastChunk(owner: map<nat, Owner>, size: nat, off: nat, n: nat, readable: nat, start: nat, done: nat, reach: nat) {
    && start < n && ChunkStart(start) && start <= done <= reach && done < start + ChunkOf(n - start)
    && ((done == reach == start && CannotWrite(size, off, off + start, ChunkOf(n - start)))
        || Stopped(owner, off + start, ChunkOf(n - start), Remaining(readable, start), done - start, reach - start))
  }

  predicate IsChunk(i: nat, c: nat) {
    i == MAXCHUNK * c
  }

  /** A chunk of `filewrite` begins at i. */
  ghost predicate ChunkStart(i: nat) {
    exists c: nat :: IsChunk(i, c)
  }

  /** The size of the next chunk. */
  function ChunkOf(left: nat): (m: nat)
    ensures m <= left && m <= MAXCHUNK && (0 < left ==> 0 < m)
  {
    if left > MAXCHUNK then MAXCHUNK else left
  }

  lemma ChunkProgress(c: seq<Byte>, off: nat, done: seq<Byte>, data: seq<Byte>, reach: nat, r: int, c': seq<Byte>)
    requires done == [] || off <= |c|
    requires reach <= |data| && (r < 0 ==> reach == 0 && c' == After(c, off, done, |done|))
    requires 0 <= r ==> r <= reach && off + |done| <= |After(c, off, done, |done|)|
                        && c' == After(After(c, off, done, |done|), off + |done|, data[..reach], r)
    ensures c' == After(c, off, done + data[..reach], |done| + Max(0, r)) && (0 <= r ==> off <= |c|)
  {
    if 0 <= r {
      ChunkSize(c, off, done);
      AfterTwice(c, off, done, data[..reach], r);
    } else {
      assert done + data[..0] == done;
    }
  }

  lemma ChunkSize(c: seq<Byte>, off: nat, done: seq<Byte>)
    requires done == [] || off <= |c|
    requires off + |done| <= |After(c, off, done, |done|)|
    ensures off <= |c|
  {
  }

  /** What can be read of a source from position i on. */
  function Remaining(readable: nat, i: nat): nat {
    if i < readable then readable - i else 0
  }

  /** The source ends where a block of the file or a chunk begins. */
  predicate WholeChunks(off: nat, n: nat, readable: nat) {
    readable >= n || readable % MAXCHUNK == 0 || (off + readable) % BSIZE == 0
  }

  lemma ChunkWhole(off: nat, n: nat, readable: nat, i: nat, n1: nat)
    requires WholeChunks(off, n, readable) && ChunkStart(i) && n1 <= MAXCHUNK && i + n1 <= n
    ensures WholeBlocks(off + i, n1, Remaining(readable, i))
  {
    var c: nat :| IsChunk(i, c);
    if i < readable < n && readable % MAXCHUNK == 0 {
      assert (readable - i) % MAXCHUNK == 0;
    }
  }

  /** A chunk of `filewrite` is torn only where the source ends inside a block and a chunk. */
  lemma ChunkTorn(owner: map<nat, Owner>, off: nat, n: nat, readable: nat, i: nat, n1: nat, r: nat, put: nat)
    requires ChunkStart(i) && n1 <= MAXCHUNK && i + n1 <= n && WholeChunks(off, n, readable)
    requires Stopped(owner, off + i, n1, Remaining(readable, i), r, put)
    ensures put == r
  {
    ChunkWhole(off, n, readable, i, n1);
    TornExactly(owner, off + i, n1, Remaining(readable, i), r, put);
  }

  lemma ChunkLast(owner: map<nat, Owner>, size: nat, off: nat, n: nat, readable: nat, i: nat, r: int, put: nat)
    requires ChunkStart(i) && i < n && -1 <= r && r != ChunkOf(n - i)
    requires if r == -1 then put == 0 && CannotWrite(size, off, off + i, ChunkOf(n - i))
             else Stopped(owner, off + i, ChunkOf(n - i), Remaining(readable, i), r, put)
    ensures i + Max(0, r) <= i + put <= n && i + Max(0, r) < n && LastChunk(owner, size, off, n, readable, i, i + Max(0, r), i + put)
  {
  }

  lemma ChunkNext(owner: map<nat, Owner>, o: nat, i: nat, n: nat, avail: nat, put: nat)
    requires ChunkStart(i) && i < n && Stopped(owner, o, ChunkOf(n - i), avail, ChunkOf(n - i), put)
    ensures put == ChunkOf(n - i) && (i + ChunkOf(n - i) == n || ChunkStart(i + ChunkOf(n - i)))
  {
    var c: nat :| IsChunk(i, c);
    assert i + ChunkOf(n - i) != n ==> IsChunk(i + ChunkOf(n - i), c + 1);
  }

  /** Why `filewrite` of n bytes stops after `done`: the disk is full, the source ends, or the write
      is refused.  Bytes that were not acknowledged are in a buffer only if the source ends inside
      a block and inside a chunk. */
  lemma FileTorn(owner: map<nat, Owner>, size: nat, off: nat, n: nat, readable: nat, start: nat, done: nat, reach: nat)
    requires LastChunk(owner, size, off, n, readable, start, done, reach) && done < n
    ensures NoneFree(owner) || readable < n || CannotWrite(size, off, off + done, ChunkOf(n - done))
    ensures WholeChunks(off, n, readable) ==> reach == done
    ensures done < reach ==> reach == readable
  {
    if reach != start && WholeChunks(off, n, readable) {
      ChunkTorn(owner, off, n, readable, start, ChunkOf(n - start), done - start, reach - start);
    }
  }

  class OpenFile {
    const ip: nat
    var off: nat

    constructor (ip: nat, off: nat)
      ensures this.ip == ip && this.off == off
    {
      this.ip, this.off := ip, off;
    }
  }

  /** The inodes with the size of one taken as 0. */
  function Shadow(inode: map<nat, Inode>, i: nat): map<nat, Inode>
    requires i in inode
  {
    inode[i := inode[i].(size := 0)]
  }

  /** Owner of a block after the direct blocks below k of inode i were freed. */
  function CutDirect(o: Owner, i: nat, k: nat): Owner {
    if o.Data? && o.inum == i && o.bn < k then Free else o
  }

  lemma AllCut(owner0: map<nat, Owner>, owner1: map<nat, Owner>, owner: map<nat, Owner>, i: nat)
    requires owner.Keys == owner1.Keys == owner0.Keys && NoneHeld(owner0)
    requires forall b {:trigger owner1[b]} :: b in owner1 ==> owner1[b] == CutDirect(owner0[b], i, NDIRECT)
    requires forall b {:trigger owner[b]} :: b in owner ==> owner[b] == if Listed(owner1[b], i) then Free else owner1[b]
    ensures forall b {:trigger owner[b]} :: b in owner ==> owner[b] == if Mine(owner0[b], i) then Free else owner0[b]
  {
    forall b | b in owner ensures owner[b] == if Mine(owner0[b], i) then Free else owner0[b] {
      assert owner1[b] == CutDirect(owner0[b], i, NDIRECT) && !owner0[b].Held?;
    }
  }

  /** The indirect block of inode i, and what it lists. */
  predicate Listed(o: Owner, i: nat) {
    o == Indirect(i) || (o.Data? && o.inum == i && NDIRECT <= o.bn)
  }

  /** Entry j of the indirect block t lists the block that records it. */
  ghost predicate EntryOk(block: map<nat, Block>, owner: map<nat, Owner>, i: nat, t: nat, j: nat)
    requires j < NINDIRECT
  {
    && t in block
    && var a := Word(block[t], j);
       && (a != 0 ==> a in owner)
       && forall b {:trigger owner[b]} :: b in owner ==> (owner[b] == Data(i, NDIRECT + j) <==> b == a && b != 0)
  }

  /** Owner of a block while the blocks listed in the indirect block are freed, up to entry j. */
  function CutListed(o: Owner, i: nat, j: nat): Owner {
    if !Listed(o, i) then o else if o.Data? && o.bn < NDIRECT + j then Free else Held
  }

  /** Only inode i has changed, and only in its first k addresses, which are 0. */
  ghost predicate Cleared(inode0: map<nat, Inode>, inode: map<nat, Inode>, i: nat, k: nat) {
    && i in inode0 && |inode0[i].addrs| == NDIRECT + 1 && k <= NDIRECT
    && inode.Keys == inode0.Keys && inode[i].size == inode0[i].size && |inode[i].addrs| == NDIRECT + 1
    && (forall j {:trigger inode[j]} :: j in inode && j != i ==> inode[j] == inode0[j])
    && (forall n {:trigger inode[i].addrs[n]} :: 0 <= n <= NDIRECT ==> inode[i].addrs[n] == if n < k then 0 else inode0[i].addrs[n])
  }

  /** Only the bitmap may have changed. */
  ghost predicate OnlyMeta(block0: map<nat, Block>, owner0: map<nat, Owner>, block: map<nat, Block>) {
    && block.Keys == block0.Keys == owner0.Keys
    && forall b {:trigger block[b]} :: b in block0 && !owner0[b].Meta? ==> block[b] == block0[b]
  }

  lemma ShadowOk(sb: Super, block: map<nat, Block>, inode: map<nat, Inode>, owner: map<nat, Owner>, i: nat)
    requires Ok(sb, block, inode, owner) && i in inode
    ensures Ok(sb, block, Shadow(inode, i), owner)
  {
    ResizeOk(sb, block, inode, owner, i, 0);
  }

  /** The block at index n is the one that records it. */
  lemma OwnerAt(sb: Super, block: map<nat, Block>, inode: map<nat, Inode>, owner: map<nat, Owner>, i: nat, n: nat)
    requires Ok(sb, block, inode, owner) && i in inode && n < MAXFILE
    ensures Addr(block, inode[i], n) != 0 ==> Addr(block, inode[i], n) in owner
    ensures forall b {:trigger owner[b]} :: b in owner ==> (owner[b] == Data(i, n) <==> b == Addr(block, inode[i], n) && b != 0)
  {
    assert InodeOk(sb, block, inode, owner, i) && MapOk(block, inode, owner, i, n);
    forall b | b in owner && owner[b] == Data(i, n) ensures b == Addr(block, inode[i], n) && b != 0 {
      assert OwnerOk(block, inode, owner, b) && BitOk(sb, block, owner, b);
    }
  }

  lemma NoListed(sb: Super, block: map<nat, Block>, inode: map<nat, Inode>, owner: map<nat, Owner>, i: nat)
    requires Ok(sb, block, inode, owner) && i in inode && Ind(inode[i]) == 0
    ensures forall b {:trigger owner[b]} :: b in owner ==> !Listed(owner[b], i)
  {
    forall b | b in owner ensures !Listed(owner[b], i) {
      assert OwnerOk(block, inode, owner, b) && BitOk(sb, block, owner, b);
    }
  }

  lemma ListedBlocks(sb: Super, block: map<nat, Block>, inode: map<nat, Inode>, owner: map<nat, Owner>, i: nat)
    requires Ok(sb, block, inode, owner) && i in inode && Ind(inode[i]) != 0
    ensures Ind(inode[i]) in owner && owner[Ind(inode[i])] == Indirect(i)
    ensures forall b {:trigger owner[b]} :: b in owner && Listed(owner[b], i) ==> b == Ind(inode[i]) || (owner[b].Data? && owner[b].bn < MAXFILE)
  {
    assert InodeOk(sb, block, inode, owner, i);
    forall b | b in owner && Listed(owner[b], i) ensures b == Ind(inode[i]) || (owner[b].Data? && owner[b].bn < MAXFILE) {
      assert OwnerOk(block, inode, owner, b);
    }
  }

  /** The bitmap has no part in the contents of files. */
  lemma MetaContent(sb: Super, block0: map<nat, Block>, inode: map<nat, Inode>, owner: map<nat, Owner>, block: map<nat, Block>)
    requires Ok(sb, block0, inode, owner) && OnlyMeta(block0, owner, block)
    ensures forall j {:trigger inode[j]} :: j in inode ==> Content(block, inode[j]) == Content(block0, inode[j])
  {
    forall j | j in inode ensures Content(block, inode[j]) == Content(block0, inode[j]) {
      assert InodeOk(sb, block0, inode, owner, j);
      forall k | 0 <= k < inode[j].size ensures ByteAt(block, inode[j], k) == ByteAt(block0, inode[j], k) {
        assert MapOk(block0, inode, owner, j, k / BSIZE) && Mapped(block0, inode[j], k / BSIZE);
        AddrFrame(sb, block0, inode, owner, block, j, k / BSIZE);
      }
    }
  }

  /** `memmove` of data into a block. */
  function Patch(b: Block, at: nat, data: seq<Byte>): Block
    requires at + |data| <= BSIZE
  {
    b[..at] + data + b[at + |data|..]
  }

  lemma Chunk(block: map<nat, Block>, ip: Inode, o: nat, m: nat)
    requires o % BSIZE + m <= BSIZE && o + m <= ip.size && Addr(block, ip, o / BSIZE) in block
    ensures Content(block, ip)[o..o + m] == block[Addr(block, ip, o / BSIZE)][o % BSIZE..o % BSIZE + m]
  {
    forall k | o <= k < o + m ensures k / BSIZE == o / BSIZE && k % BSIZE == o % BSIZE + (k - o) {
    }
  }

  /** The bytes at offset o of inode i are now `data`; every other byte in a mapped block, of
      this or another inode, is what it was. */
  ghost predicate Wrote(block0: map<nat, Block>, inode0: map<nat, Inode>, block: map<nat, Block>, inode: map<nat, Inode>, i: nat, o: nat, data: seq<Byte>) {
    && inode.Keys == inode0.Keys && i in inode && inode[i].size == inode0[i].size
    && (forall j {:trigger inode[j]} :: j in inode0 && j != i ==> inode[j] == inode0[j])
    && (forall j, k: nat {:trigger ByteAt(block, inode[j], k)} ::
          j in inode0 && Addr(block0, inode0[j], k / BSIZE) != 0 && !(j == i && o <= k < o + |data|) ==>
          Addr(block, inode[j], k / BSIZE) != 0 && ByteAt(block, inode[j], k) == ByteAt(block0, inode0[j], k))
    && (forall k: nat {:trigger ByteAt(block, inode[i], k)} :: o <= k < o + |data| ==>
          Addr(block, inode[i], k / BSIZE) != 0 && ByteAt(block, inode[i], k) == data[k - o])
  }

  /** `bmap` changes no byte. */
  lemma LookedBytes(sb: Super, block0: map<nat, Block>, inode0: map<nat, Inode>, owner0: map<nat, Owner>,
                    block: map<nat, Block>, inode: map<nat, Inode>, owner: map<nat, Owner>, i: nat, o: nat, a: nat)
    requires Ok(sb, block0, inode0, owner0) && OnlyEntry(block0, inode0, block, inode, i, o / BSIZE) && DataKept(block0, owner0, block, owner)
    ensures Wrote(block0, inode0, block, inode, i, o, [])
  {
    forall j, k: nat | j in inode0 && Addr(block0, inode0[j], k / BSIZE) != 0
      ensures Addr(block, inode[j], k / BSIZE) != 0 && ByteAt(block, inode[j], k) == ByteAt(block0, inode0[j], k)
    {
      assert InodeOk(sb, block0, inode0, owner0, j) && MapOk(block0, inode0, owner0, j, k / BSIZE);
      assert Addr(block, inode[j], k / BSIZE) == Addr(block0, inode0[j], k / BSIZE);
    }
  }

  lemma PatchBytes(sb: Super, block: map<nat, Block>, inode: map<nat, Inode>, owner: map<nat, Owner>, i: nat, o: nat, data: seq<Byte>, a: nat)
    requires Ok(sb, block, inode, owner) && i in inode && o % BSIZE + |data| <= BSIZE && o / BSIZE < MAXFILE
    requires a == Addr(block, inode[i], o / BSIZE) && a != 0 && a in owner && owner[a] == Data(i, o / BSIZE)
    ensures Wrote(block, inode, block[a := Patch(block[a], o % BSIZE, data)], inode, i, o, data)
  {
    var block' := block[a := Patch(block[a], o % BSIZE, data)];
    forall j, k: nat | j in inode
      ensures Addr(block', inode[j], k / BSIZE) == Addr(block, inode[j], k / BSIZE)
      ensures Addr(block, inode[j], k / BSIZE) != 0 && !(j == i && o <= k < o + |data|) ==> ByteAt(block', inode[j], k) == ByteAt(block, inode[j], k)
    {
      AddrFrame(sb, block, inode, owner, block', j, k / BSIZE);
      assert InodeOk(sb, block, inode, owner, j);
      assert k / BSIZE < MAXFILE ==> MapOk(block, inode, owner, j, k / BSIZE);
    }
    forall k: nat | o <= k < o + |data|
      ensures Addr(block', inode[i], k / BSIZE) != 0 && ByteAt(block', inode[i], k) == data[k - o]
    {
      assert k / BSIZE == o / BSIZE && k % BSIZE == o % BSIZE + (k - o);
    }
  }

  /** Two writes, one after the other. */
  lemma WroteThen(block0: map<nat, Block>, inode0: map<nat, Inode>, block1: map<nat, Block>, inode1: map<nat, Inode>,
                  block2: map<nat, Block>, inode2: map<nat, Inode>, i: nat, o: nat, first: seq<Byte>, second: seq<Byte>)
    requires Wrote(block0, inode0, block1, inode1, i, o, first)
    requires Wrote(block1, inode1, block2, inode2, i, o + |first|, second)
    ensures Wrote(block0, inode0, block2, inode2, i, o, first + second)
  {
    assert inode1[i].size == inode0[i].size;
    forall j, k: nat | j in inode0 && Addr(block0, inode0[j], k / BSIZE) != 0 && !(j == i && o <= k < o + |first + second|)
      ensures Addr(block2, inode2[j], k / BSIZE) != 0 && ByteAt(block2, inode2[j], k) == ByteAt(block0, inode0[j], k)
    {
      assert ByteAt(block1, inode1[j], k) == ByteAt(block0, inode0[j], k) && Addr(block1, inode1[j], k / BSIZE) != 0;
      assert ByteAt(block2, inode2[j], k) == ByteAt(block1, inode1[j], k);
    }
    forall k: nat | o <= k < o + |first + second|
      ensures Addr(block2, inode2[i], k / BSIZE) != 0 && ByteAt(block2, inode2[i], k) == (first + second)[k - o]
    {
      if k < o + |first| {
        assert ByteAt(block1, inode1[i], k) == first[k - o] && Addr(block1, inode1[i], k / BSIZE) != 0;
        assert ByteAt(block2, inode2[i], k) == ByteAt(block1, inode1[i], k);
      } else {
        assert ByteAt(block2, inode2[i], k) == second[k - o - |first|];
      }
    }
  }

  /** After a write from within the file there is no hole below the new size. */
  lemma WroteSize(sb: Super, block0: map<nat, Block>, inode0: map<nat, Inode>, owner0: map<nat, Owner>,
                  block: map<nat, Block>, inode: map<nat, Inode>, i: nat, o: nat, data: seq<Byte>)
    requires Ok(sb, block0, inode0, owner0) && i in inode0 && o <= inode0[i].size
    requires Wrote(block0, inode0, block, inode, i, o, data)
    ensures forall n {:trigger Addr(block, inode[i], n)} :: 0 <= n && n * BSIZE < Max(inode0[i].size, o + |data|) ==> Addr(block, inode[i], n) != 0
  {
    assert InodeOk(sb, block0, inode0, owner0, i);
    forall n | 0 <= n && n * BSIZE < Max(inode0[i].size, o + |data|) ensures Addr(block, inode[i], n) != 0 {
      var k := n * BSIZE;
      assert k / BSIZE == n;
      if n < MAXFILE {
        assert Mapped(block0, inode0[i], n);
      }
      var b := ByteAt(block, inode[i], k);
    }
  }

  lemma WroteContent(sb: Super, block0: map<nat, Block>, inode0: map<nat, Inode>, owner0: map<nat, Owner>,
                     block: map<nat, Block>, inode: map<nat, Inode>, i: nat, o: nat, data: seq<Byte>)
    requires Ok(sb, block0, inode0, owner0) && i in inode0 && o <= inode0[i].size
    requires Wrote(block0, inode0, block, inode, i, o, data)
    ensures Content(block, inode[i].(size := Max(inode0[i].size, o + |data|))) == Splice(Content(block0, inode0[i]), o, data)
    ensures forall j {:trigger inode[j]} :: j in inode && j != i ==> Content(block, inode[j]) == Content(block0, inode0[j])
  {
    var ip := inode[i].(size := Max(inode0[i].size, o + |data|));
    var c, d := Content(block, ip), Splice(Content(block0, inode0[i]), o, data);
    assert InodeOk(sb, block0, inode0, owner0, i);
    forall k | 0 <= k < |c| ensures c[k] == d[k] {
      assert ByteAt(block, ip, k) == ByteAt(block, inode[i], k);
      if !(o <= k < o + |data|) {
        assert Mapped(block0, inode0[i], k / BSIZE);
      }
    }
    forall j | j in inode && j != i ensures Content(block, inode[j]) == Content(block0, inode0[j]) {
      assert InodeOk(sb, block0, inode0, owner0, j);
      forall k | 0 <= k < inode0[j].size ensures ByteAt(block, inode[j], k) == ByteAt(block0, inode0[j], k) {
        assert Mapped(block0, inode0[j], k / BSIZE);
      }
    }
  }

  lemma ContentPrefix(block: map<nat, Block>, ip: Inode, a: nat, b: nat)
    requires a <= b
    ensures Content(block, ip.(size := a)) == Content(block, ip.(size := b))[..a]
  {
    var p, q := ip.(size := a), ip.(size := b);
    forall k | 0 <= k < a ensures ByteAt(block, p, k) == ByteAt(block, q, k) {
    }
  }

  lemma TornContent(sb: Super, block0: map<nat, Block>, inode0: map<nat, Inode>, owner0: map<nat, Owner>,
                    block: map<nat, Block>, inode: map<nat, Inode>, i: nat, o: nat, data: seq<Byte>, keep: nat)
    requires Ok(sb, block0, inode0, owner0) && i in inode0 && o <= inode0[i].size && keep <= |data|
    requires Wrote(block0, inode0, block, inode, i, o, data)
    ensures Content(block, inode[i].(size := Max(inode0[i].size, o + keep))) == After(Content(block0, inode0[i]), o, data, keep)
    ensures forall j {:trigger inode[j]} :: j in inode && j != i ==> Content(block, inode[j]) == Content(block0, inode0[j])
  {
    WroteContent(sb, block0, inode0, owner0, block, inode, i, o, data);
    ContentPrefix(block, inode[i], Max(inode0[i].size, o + keep), Max(inode0[i].size, o + |data|));
  }

  // ---- what a write logs ----

  /** The largest chunk of `filewrite`: ((MAXOPBLOCKS-1-1-2) / 2) * BSIZE. */
  const MAXCHUNK := ((MAXOPBLOCKS - 1 - 1 - 2) / 2) * BSIZE

  /** Up to the last `log_write` of an operation its reservation is not used up. */
  ghost predicate Paced(trace: seq<nat>) {
    trace != [] && |Elems(trace[..|trace| - 1])| < MAXOPBLOCKS
  }

  /** Every `log_write` of a paced operation comes with a reservation to spare, so the whole
      operation logs at most MAXOPBLOCKS blocks. */
  lemma PacedSteps(trace: seq<nat>, k: nat)
    requires Paced(trace) && k < |trace|
    ensures |Elems(trace[..k])| < MAXOPBLOCKS && |Elems(trace)| <= MAXOPBLOCKS
  {
    var before := trace[..|trace| - 1];
    assert trace == before + [trace[|trace| - 1]];
    assert Elems(trace) == Elems(before) + {trace[|trace| - 1]};
    SubsetSize(Elems(trace[..k]), Elems(before));
  }

  /** In terms of the log's accounting, such an operation does not depend on logging a block
      again once its reservation is used up. */
  lemma PacedAllowed(trace: seq<nat>, k: nat, s: LogSpace.Space, p: nat)
    requires Paced(trace) && k < |trace| && p in s.ops && s.ops[p] == Elems(trace[..k])
    ensures LogSpace.Allowed(s, LogSpace.LogWrite(p, trace[k]), false)
    ensures LogSpace.Apply(s, LogSpace.LogWrite(p, trace[k])).ops[p] == Elems(trace[..k + 1])
  {
    PacedSteps(trace, k);
    assert trace[..k + 1] == trace[..k] + [trace[k]];
  }

  /** Block b was given back since `owner0`. */
  predicate NewlyFree(owner0: map<nat, Owner>, owner: map<nat, Owner>, b: nat) {
    b in owner0 && b in owner && owner[b].Free? && !owner0[b].Free?
  }

  predicate BitmapOf(sb: Super, owner0: map<nat, Owner>, owner: map<nat, Owner>, x: nat, b: nat) {
    NewlyFree(owner0, owner, b) && sb.Bblock(b) == x
  }

  /** Since (owner0, trace0) the bitmap blocks of the blocks given back were logged, and only these. */
  ghost predicate LogsFreed(sb: Super, owner0: map<nat, Owner>, trace0: seq<nat>, owner: map<nat, Owner>, trace: seq<nat>) {
    && owner.Keys == owner0.Keys && (forall b {:trigger owner[b]} :: b in owner && owner0[b].Free? ==> owner[b].Free?)
    && (forall x {:trigger x in trace} :: x in trace ==> x in trace0 || exists b :: BitmapOf(sb, owner0, owner, x, b))
    && (forall x {:trigger x in trace0} :: x in trace0 ==> x in trace)
    && (forall b {:trigger NewlyFree(owner0, owner, b)} :: NewlyFree(owner0, owner, b) ==> sb.Bblock(b) in trace)
  }

  lemma FreedNone(sb: Super, owner0: map<nat, Owner>, trace: seq<nat>, owner: map<nat, Owner>)
    requires owner.Keys == owner0.Keys && forall b {:trigger owner[b]} :: b in owner ==> (owner[b].Free? <==> owner0[b].Free?)
    ensures LogsFreed(sb, owner0, trace, owner, trace)
  {
  }

  lemma FreedOne(sb: Super, owner: map<nat, Owner>, trace: seq<nat>, a: nat)
    requires a in owner && !owner[a].Free?
    ensures LogsFreed(sb, owner, trace, owner[a := Free], trace + [sb.Bblock(a)])
  {
    assert BitmapOf(sb, owner, owner[a := Free], sb.Bblock(a), a);
  }

  lemma FreedThen(sb: Super, owner0: map<nat, Owner>, trace0: seq<nat>, owner1: map<nat, Owner>, trace1: seq<nat>,
                  owner: map<nat, Owner>, trace: seq<nat>)
    requires LogsFreed(sb, owner0, trace0, owner1, trace1) && LogsFreed(sb, owner1, trace1, owner, trace)
    ensures LogsFreed(sb, owner0, trace0, owner, trace)
  {
    forall x | x in trace && x !in trace0 ensures exists b :: BitmapOf(sb, owner0, owner, x, b) {
      if x in trace1 {
        var b :| BitmapOf(sb, owner0, owner1, x, b);
        assert BitmapOf(sb, owner0, owner, x, b);
      } else {
        var b :| BitmapOf(sb, owner1, owner, x, b);
        assert BitmapOf(sb, owner0, owner, x, b);
      }
    }
    forall b | NewlyFree(owner0, owner, b) ensures sb.Bblock(b) in trace {
      if NewlyFree(owner0, owner1, b) {
        assert sb.Bblock(b) in trace1;
      } else {
        assert NewlyFree(owner1, owner, b);
      }
    }
  }

  /** The bitmap blocks of the blocks of inode i. */
  function BitmapsOf(sb: Super, owner: map<nat, Owner>, i: nat): set<nat> {
    set b | b in owner && Mine(owner[b], i) :: sb.Bblock(b)
  }

  /** An operation that only truncates logs these and the inode, and stays within its reservation
      exactly if these are fewer than MAXOPBLOCKS. */
  lemma TruncPaced(sb: Super, owner0: map<nat, Owner>, owner: map<nat, Owner>, i: nat, before: seq<nat>, trace: seq<nat>)
    requires LogsFreed(sb, owner0, [], owner, before) && trace == before + [sb.Iblock(i)]
    requires forall b {:trigger owner[b]} :: b in owner ==> owner[b] == if Mine(owner0[b], i) then Free else owner0[b]
    ensures Elems(before) == BitmapsOf(sb, owner0, i) && (Paced(trace) <==> |BitmapsOf(sb, owner0, i)| < MAXOPBLOCKS)
  {
    assert trace[..|trace| - 1] == before;
    forall x | x in before ensures x in BitmapsOf(sb, owner0, i) {
      var b :| BitmapOf(sb, owner0, owner, x, b);
    }
    forall b | b in owner0 && Mine(owner0[b], i) ensures sb.Bblock(b) in before {
      assert NewlyFree(owner0, owner, b);
    }
  }

  /** On a disk with few bitmap blocks that is always so. */
  lemma FewBitmaps(sb: Super, owner: map<nat, Owner>, i: nat)
    requires sb.size <= (MAXOPBLOCKS - 1) * BPB && forall b :: b in owner ==> b < sb.size
    ensures |BitmapsOf(sb, owner, i)| < MAXOPBLOCKS
  {
    var all := Blocks(sb.bmapstart, MAXOPBLOCKS - 1);
    forall x | x in BitmapsOf(sb, owner, i) ensures x in all {
      var b: nat :| b in owner && Mine(owner[b], i) && sb.Bblock(b) == x;
      assert b / BPB < MAXOPBLOCKS - 1;
    }
    SubsetSize(BitmapsOf(sb, owner, i), all);
  }

  /** n blocks from `from` on. */
  function Blocks(from: nat, n: nat): (r: set<nat>)
    ensures |r| == n && forall x :: x in r <==> from <= x < from + n
  {
    if n == 0 then {} else Blocks(from, n - 1) + {from + n - 1}
  }

  /** What the loop in `writei` has logged on its way from off to o: data blocks, bitmap
      blocks and the indirect block.  A first turn inside a block does not allocate it. */
  ghost predicate Bill(ind0: nat, ind: nat, trace0: seq<nat>, trace: seq<nat>, off: nat, o: nat, n: nat) {
    exists turns: nat, datas: set<nat>, bits: set<nat> :: BillOf(ind0, ind, trace0, trace, off, o, n, turns, datas, bits)
  }

  predicate BillOf(ind0: nat, ind: nat, trace0: seq<nat>, trace: seq<nat>, off: nat, o: nat, n: nat,
                   turns: nat, datas: set<nat>, bits: set<nat>)
  {
    && TurnsOk(off, o, n, turns)
    && LogsOnly(trace0, trace, datas + bits, ind, ind)
    && |datas| <= turns
    && |bits| <= turns - (if off % BSIZE != 0 && turns > 0 then 1 else 0) + (if ind0 == 0 && ind != 0 then 1 else 0)
    && (ind0 != 0 ==> ind == ind0)
  }

  /** The bytes from off to o lie in this many blocks; a turn ends at the end of a block or
      of the write. */
  predicate TurnsOk(off: nat, o: nat, n: nat, turns: nat) {
    && off <= o <= off + n && (turns == 0 <==> o == off)
    && (off < o ==> (Start(off) + turns - 1) * BSIZE < o <= (Start(off) + turns) * BSIZE)
    && (off < o < off + n ==> o == (Start(off) + turns) * BSIZE)
  }

  function Start(off: nat): (b: nat)
    ensures b * BSIZE <= off < (b + 1) * BSIZE
  {
    off / BSIZE
  }

  /** `min(n - tot, BSIZE - off%BSIZE)` */
  function Step(o: nat, left: nat): (m: nat)
    ensures m <= left && o % BSIZE + m <= BSIZE && (0 < left ==> 0 < m)
  {
    if left < BSIZE - o % BSIZE then left else BSIZE - o % BSIZE
  }

  lemma TurnsMore(off: nat, o: nat, n: nat, turns: nat)
    requires TurnsOk(off, o, n, turns) && o < off + n
    ensures TurnsOk(off, o + Step(o, off + n - o), n, turns + 1)
  {
  }

  lemma JoinSlices(c: seq<Byte>, a: nat, b: nat, m: nat, k: nat)
    requires a <= b && b + m <= |c| && k <= m
    ensures c[a..b] + c[b..b + m][..k] == c[a..b + k] && c[b..b + m][..m] == c[b..b + m]
  {
  }

  /** A write that starts inside a block finds it mapped. */
  predicate StartsMapped(block: map<nat, Block>, ip: Inode, off: nat, tot: nat) {
    tot == 0 && off % BSIZE != 0 ==> Addr(block, ip, off / BSIZE) != 0
  }

  lemma BillMore(ind0: nat, ind1: nat, ind: nat, trace0: seq<nat>, trace1: seq<nat>, trace: seq<nat>, off: nat, o: nat, n: nat,
                 addr: nat, more: set<nat>, added: bool)
    requires Bill(ind0, ind1, trace0, trace1, off, o, n) && o < off + n
    requires LogsOnly(trace1, trace, more, addr, ind)
    requires |more| <= (if added then 1 else 0) + (if ind1 == 0 && ind != 0 then 1 else 0)
    requires ind1 != 0 ==> ind == ind1
    requires added ==> addr != 0 && !(off % BSIZE != 0 && o == off)
    ensures Bill(ind0, ind, trace0, trace, off, if addr == 0 then o else o + Step(o, off + n - o), n)
  {
    var turns: nat, datas: set<nat>, bits: set<nat> :| BillOf(ind0, ind1, trace0, trace1, off, o, n, turns, datas, bits);
    if addr == 0 {
      UnionSize(bits, more);
      assert BillOf(ind0, ind, trace0, trace, off, o, n, turns, datas, bits + more);
    } else {
      TurnsMore(off, o, n, turns);
      BillTurn(ind0, ind1, ind, trace0, trace1, trace, off, o, n, turns, datas, bits, o + Step(o, off + n - o), addr, more, added);
    }
  }

  lemma BillTurn(ind0: nat, ind1: nat, ind: nat, trace0: seq<nat>, trace1: seq<nat>, trace: seq<nat>, off: nat, o: nat, n: nat,
                 turns: nat, datas: set<nat>, bits: set<nat>, o': nat, addr: nat, more: set<nat>, added: bool)
    requires BillOf(ind0, ind1, trace0, trace1, off, o, n, turns, datas, bits) && TurnsOk(off, o', n, turns + 1)
    requires LogsOnly(trace1, trace, more, addr, ind)
    requires |more| <= (if added then 1 else 0) + (if ind1 == 0 && ind != 0 then 1 else 0)
    requires ind1 != 0 ==> ind == ind1
    requires added ==> !(off % BSIZE != 0 && turns == 0)
    ensures BillOf(ind0, ind, trace0, trace, off, o', n, turns + 1, datas + {addr}, bits + more)
  {
    UnionSize(bits, more);
    UnionSize(datas, {addr});
  }

  lemma UnionSize(a: set<nat>, b: set<nat>)
    ensures |a + b| <= |a| + |b|
  {
  }

  lemma BillBound(ind0: nat, ind: nat, trace: seq<nat>, off: nat, o: nat, n: nat)
    requires Bill(ind0, ind, [], trace, off, o, n) && n <= MAXCHUNK
    ensures |Elems(trace)| < MAXOPBLOCKS
  {
    var turns: nat, datas: set<nat>, bits: set<nat> :| BillOf(ind0, ind, [], trace, off, o, n, turns, datas, bits);
    var all := datas + bits + ({ind} - {0});
    assert Elems(trace) <= all;
    assert turns <= if off % BSIZE != 0 then 4 else 3;
    assert |datas + bits| <= |datas| + |bits| && |{ind} - {0}| <= 1;
    assert |all| <= |datas| + |bits| + 1;
    SubsetSize(Elems(trace), all);
  }

  function Ind(ip: Inode): nat {
    if |ip.addrs| == NDIRECT + 1 then ip.addrs[NDIRECT] else 0
  }

  lemma DirectEntry(block: map<nat, Block>, inode: map<nat, Inode>, block': map<nat, Block>, i: nat, bn: nat, a: nat)
    requires i in inode && |inode[i].addrs| == NDIRECT + 1 && bn < NDIRECT && inode[i].addrs[bn] == 0
    requires forall j, n: nat {:trigger Addr(block', inode[j], n)} :: j in inode ==> Addr(block', inode[j], n) == Addr(block, inode[j], n)
    ensures OnlyEntry(block, inode, block', inode[i := inode[i].(addrs := inode[i].addrs[bn := a])], i, bn)
  {
    var inode' := inode[i := inode[i].(addrs := inode[i].addrs[bn := a])];
    forall j, n: nat | j in inode && (j != i || n != bn || Addr(block, inode[j], n) != 0)
      ensures Addr(block', inode'[j], n) == Addr(block, inode[j], n)
    {
      assert Addr(block', inode[j], n) == Addr(block, inode[j], n);
    }
  }

  lemma EntryTrans(block0: map<nat, Block>, inode0: map<nat, Inode>, owner0: map<nat, Owner>,
                   block1: map<nat, Block>, inode1: map<nat, Inode>, owner1: map<nat, Owner>,
                   block2: map<nat, Block>, inode2: map<nat, Inode>, owner2: map<nat, Owner>, i: nat, bn: nat)
    requires OnlyEntry(block0, inode0, block1, inode1, i, -1) && DataKept(block0, owner0, block1, owner1)
    requires OnlyEntry(block1, inode1, block2, inode2, i, bn) && DataKept(block1, owner1, block2, owner2)
    ensures OnlyEntry(block0, inode0, block2, inode2, i, bn) && DataKept(block0, owner0, block2, owner2)
    ensures Addr(block1, inode1[i], bn) == Addr(block0, inode0[i], bn)
  {
    assert inode1[i].size == inode0[i].size;
    forall j, n: nat | j in inode0 && (j != i || n != bn || Addr(block0, inode0[j], n) != 0)
      ensures Addr(block2, inode2[j], n) == Addr(block0, inode0[j], n)
    {
      assert Addr(block1, inode1[j], n) == Addr(block0, inode0[j], n);
    }
  }

  /** The indirect block of one inode does not matter to the others. */
  lemma EntryFrame(sb: Super, block: map<nat, Block>, inode: map<nat, Inode>, owner: map<nat, Owner>, block': map<nat, Block>, i: nat, t: nat)
    requires Ok(sb, block, inode, owner) && i in inode && t == Ind(inode[i]) && t != 0 && block'.Keys == block.Keys
    requires forall b {:trigger block'[b]} :: b in block && b != t ==> block'[b] == block[b]
    ensures t in owner && owner[t] == Indirect(i)
    ensures forall j, n: nat {:trigger Addr(block', inode[j], n)} :: j in inode && j != i ==> Addr(block', inode[j], n) == Addr(block, inode[j], n)
  {
    assert InodeOk(sb, block, inode, owner, i);
    forall j, n: nat | j in inode && j != i ensures Addr(block', inode[j], n) == Addr(block, inode[j], n) {
      AddrFrame(sb, block, inode, owner, block', j, n);
    }
  }

  /** The operation has logged blocks of s, and perhaps the blocks a and b. */
  predicate LogsOnly(trace0: seq<nat>, trace: seq<nat>, s: set<nat>, a: nat, b: nat) {
    forall x {:trigger x in trace} :: x in trace ==> x in trace0 || x in s || (x == a && a != 0) || (x == b && b != 0)
  }

  /** Allocation disturbs no inode. */
  lemma AllocFrame(sb: Super, block: map<nat, Block>, inode: map<nat, Inode>, owner: map<nat, Owner>, block': map<nat, Block>, r: nat)
    requires Ok(sb, block, inode, owner) && block'.Keys == block.Keys
    requires r == 0 ==> block' == block
    requires r != 0 ==> r in owner && owner[r].Free?
    requires r != 0 ==> forall b {:trigger block'[b]} :: b in block && b != r && b != sb.Bblock(r) ==> block'[b] == block[b]
    ensures forall j, n: nat {:trigger Addr(block', inode[j], n)} :: j in inode ==> Addr(block', inode[j], n) == Addr(block, inode[j], n)
    ensures forall b {:trigger block'[b]} :: b in block && !owner[b].Meta? && b != r ==> block'[b] == block[b]
  {
    if r != 0 {
      MetaBitmap(sb, r);
      assert BitOk(sb, block, owner, sb.Bblock(r));
    }
    forall j, n: nat | j in inode ensures Addr(block', inode[j], n) == Addr(block, inode[j], n) {
      AddrFrame(sb, block, inode, owner, block', j, n);
    }
  }
}
