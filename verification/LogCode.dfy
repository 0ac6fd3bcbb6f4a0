/** The commit and recovery code of kernel/log.c, with the outcome of a crash recorded
    after every disk write. */
module LogCode {
  import opened Common
  import opened WalModel
  import opened WalInvariant

  function Repeat<T>(x: T, n: nat): seq<T> {
    seq(n, k => x)
  }

  lemma RepeatSplits<T>(x: T, n: nat)
    ensures Repeat(x, n + 2) == [x] + Repeat(x, n) + [x]
  {
  }

  lemma WriteLogKeeps(L: Layout, d: seq<Block>, b: nat, v: Block)
    requires GoodDisk(L, d) && L.start < b < L.start + L.size && Decode(d[L.start]) == []
    ensures Recovered(L, d[b := v]) == Recovered(L, d) && HomeContents(L, d[b := v]) == HomeContents(L, d)
  {
  }

  /** Copying a listed log block to its home changes nothing for a recovery. */
  lemma InstallKeeps(L: Layout, d: seq<Block>, k: nat)
    requires GoodDisk(L, d) && k < |Decode(d[L.start])|
    ensures var e := d[Decode(d[L.start])[k] := d[L.start + 1 + k]];
      GoodDisk(L, e) && Recovered(L, e) == Recovered(L, d)
  {
    var h := Decode(d[L.start]);
    assert L.Home(h[k]);
    var e := d[h[k] := d[L.start + 1 + k]];
    forall b | b in HomeBlocks(L) ensures Image(L, d, b) == Image(L, e, b) {
      HomeWriteKeeps(L, d, e, k, b);
    }
  }

  lemma InstalledMore(L: Layout, d: seq<Block>, k: nat)
    requires GoodDisk(L, d) && k < |Decode(d[L.start])| && Installed(L, d, k)
    ensures var e := d[Decode(d[L.start])[k] := d[L.start + 1 + k]];
      GoodDisk(L, e) && Decode(e[L.start]) == Decode(d[L.start]) && Installed(L, e, k + 1)
  {
    var h := Decode(d[L.start]);
    assert L.Home(h[k]);
    var e := d[h[k] := d[L.start + 1 + k]];
    forall j | 0 <= j < k + 1 ensures HomeDone(L, e, h, j) {
      assert j < k ==> HomeDone(L, d, h, j);
    }
  }

  /** Both facts about one copy, for the disk e after it. */
  lemma InstallOne(L: Layout, d: seq<Block>, e: seq<Block>, h: seq<nat>, k: nat)
    requires GoodDisk(L, d) && h == Decode(d[L.start]) && k < |h| && h[k] < |d| && Installed(L, d, k)
    requires L.start + 1 + k < |d| && e == d[h[k] := d[L.start + 1 + k]]
    ensures GoodDisk(L, e) && e[L.start] == d[L.start] && Installed(L, e, k + 1) && Recovered(L, e) == Recovered(L, d)
  {
    assert L.Home(h[k]);
    InstallKeeps(L, d, k);
    InstalledMore(L, d, k);
  }

  lemma HeadWritten(L: Layout, d: seq<Block>, hb: Block, q: seq<nat>, e: seq<Block>)
    requires GoodDisk(L, d) && GoodList(L, q) && e == d[L.start := Encode(hb, q)]
    ensures GoodDisk(L, e) && Decode(e[L.start]) == q && HomeContents(L, e) == HomeContents(L, d)
  {
  }

  lemma CommittedAt(L: Layout, d: seq<Block>, h: seq<nat>, b: nat, v: Block)
    requires GoodDisk(L, d) && h == Decode(d[L.start]) && b in HomeBlocks(L)
    requires forall k :: 0 <= k < |h| && h[k] == b ==> d[L.start + 1 + k] == v
    requires b !in h ==> d[b] == v
    ensures Image(L, d, b) == v
  {
    if m :| 0 <= m < |h| && h[m] == b {
      ImageListed(L, d, m);
    }
  }

  lemma CommitPoint(L: Layout, d: seq<Block>, live: map<nat, Block>)
    requires GoodDisk(L, d) && live.Keys == HomeContents(L, d).Keys
    requires var h := Decode(d[L.start]);
      && (forall k :: 0 <= k < |h| ==> h[k] in live && d[L.start + 1 + k] == live[h[k]])
      && (forall b :: b in live && b !in h ==> d[b] == live[b])
    ensures Recovered(L, d) == live
  {
    var h := Decode(d[L.start]);
    forall b | b in HomeBlocks(L) ensures Image(L, d, b) == live[b] {
      assert b in HomeContents(L, d);
      CommittedAt(L, d, h, b, live[b]);
    }
  }

  lemma NotLogged(L: Layout, block: seq<nat>, tail: nat)
    requires GoodList(L, block) && L.Valid() && tail < |block|
    ensures L.Home(block[tail]) && block[tail] < L.blocks && L.start + tail + 1 !in block && L.start + tail + 1 < L.blocks
    ensures L.start + tail + 1 !in block[tail..]
  {
    forall k | 0 <= k < |block| ensures block[k] != L.start + tail + 1 {
      assert L.Home(block[k]);
    }
  }

  /** Buffers of blocks outside `dirty` agree with the disk. */
  predicate CleanBut(cache: map<nat, Block>, disk: seq<Block>, dirty: seq<nat>) {
    forall b {:trigger b in cache} :: b in cache && b !in dirty ==> b < |disk| && cache[b] == disk[b]
  }

  lemma ReadClean(cache: map<nat, Block>, disk: seq<Block>, dirty: seq<nat>, b: nat, data: Block)
    requires CleanBut(cache, disk, dirty) && b < |disk| && data == if b in cache then cache[b] else disk[b]
    ensures CleanBut(cache[b := data], disk, dirty) && (b !in dirty ==> data == disk[b])
  {
  }

  lemma WriteClean(cache: map<nat, Block>, disk: seq<Block>, dirty: seq<nat>, b: nat, data: Block)
    requires CleanBut(cache, disk, dirty) && b < |disk|
    ensures CleanBut(cache[b := data], disk[b := data], dirty)
  {
  }

  lemma InstallClean(cache: map<nat, Block>, d: seq<Block>, block: seq<nat>, tail: nat, data: Block)
    requires tail < |block| && block[tail] < |d| && CleanBut(cache, d, block[tail..])
    ensures CleanBut(cache[block[tail] := data], d[block[tail] := data], block[tail + 1..])
  {
    forall b | b in cache && b != block[tail] && b !in block[tail + 1..] ensures b !in block[tail..] {
      assert block[tail..] == [block[tail]] + block[tail + 1..];
    }
  }

  class Log {
    const L: Layout
    var disk: seq<Block>
    var cache: map<nat, Block>   // the valid buffers
    var block: seq<nat>          // log.lh.block[..log.lh.n]
    ghost var crashes: seq<map<nat, Block>>  // what recovery would restore after each disk write

    ghost predicate Valid()
      reads this
    {
      GoodDisk(L, disk) && GoodList(L, block) && forall b :: b in cache ==> b < L.blocks
    }

    /** Unlogged buffers agree with the disk; logged ones are cached. */
    ghost predicate Coherent()
      reads this
      requires Valid()
    {
      CleanBut(cache, disk, block) && forall b :: b in block ==> b in cache
    }

    /** What processes see in the home blocks. */
    ghost function Live(): map<nat, Block>
      reads this
      requires Valid()
    {
      map b | 0 <= b < L.blocks && L.Home(b) :: if b in cache then cache[b] else disk[b]
    }

    constructor (layout: Layout, formatted: seq<Block>)
      requires GoodDisk(layout, formatted)
      ensures L == layout && disk == formatted && Valid() && Coherent() && block == [] && crashes == []
    {
      L, disk, cache, block, crashes := layout, formatted, map[], [], [];
    }

    method Bread(b: nat) returns (data: Block)
      requires Valid() && b < L.blocks
      modifies this`cache
      ensures Valid() && data == (if b in old(cache) then old(cache[b]) else disk[b]) && cache == old(cache)[b := data]
    {
      if b in cache {
        data := cache[b];
        assert cache == cache[b := data];
      } else {
        data := disk[b];
        cache := cache[b := data];
      }
    }

    method Bwrite(b: nat, data: Block)
      requires Valid() && b < L.blocks && GoodDisk(L, disk[b := data])
      modifies this`cache, this`disk, this`crashes
      ensures Valid() && cache == old(cache)[b := data] && disk == old(disk)[b := data]
      ensures crashes == old(crashes) + [Recovered(L, disk)]
    {
      cache := cache[b := data];
      disk := disk[b := data];
      crashes := crashes + [Recovered(L, disk)];
    }

    /** One turn of the loop in `write_log`. */
    method WriteLogBlock(tail: nat)
      requires Valid() && Coherent() && Decode(disk[L.start]) == [] && tail < |block|
      modifies this`cache, this`disk, this`crashes
      ensures Valid() && Coherent()
      ensures disk == old(disk)[L.start + 1 + tail := old(cache[block[tail]])]
      ensures forall b :: b in block ==> cache[b] == old(cache[b])
      ensures Recovered(L, disk) == old(Recovered(L, disk)) && HomeContents(L, disk) == old(HomeContents(L, disk))
      ensures crashes == old(crashes) + [Recovered(L, disk)]
    {
      NotLogged(L, block, tail);
      ghost var c0 := cache;
      var to := Bread(L.start + tail + 1);
      ReadClean(c0, disk, block, L.start + tail + 1, to);
      ghost var c1 := cache;
      var from := Bread(block[tail]);
      ReadClean(c1, disk, block, block[tail], from);
      WriteLogKeeps(L, disk, L.start + tail + 1, from);
      WriteClean(cache, disk, block, L.start + tail + 1, from);
      Bwrite(L.start + tail + 1, from);
    }

    /** `write_log` copies every logged block from the cache to the log; no recovery sees
        it yet. */
    method WriteLog()
      requires Valid() && Coherent() && Decode(disk[L.start]) == []
      modifies this`cache, this`disk, this`crashes
      ensures Valid() && Coherent() && disk[L.start] == old(disk[L.start])
      ensures forall k :: 0 <= k < |block| ==> disk[L.start + 1 + k] == old(cache[block[k]])
      ensures forall b :: b in block ==> cache[b] == old(cache[b])
      ensures HomeContents(L, disk) == old(HomeContents(L, disk))
      ensures crashes == old(crashes) + Repeat(old(Recovered(L, disk)), |block|)
    {
      ghost var image := Recovered(L, disk);
      var tail := 0;
      while tail < |block|
        invariant 0 <= tail <= |block|
        invariant Valid() && Coherent() && disk[L.start] == old(disk[L.start])
        invariant forall k :: 0 <= k < tail ==> disk[L.start + 1 + k] == old(cache[block[k]])
        invariant forall b :: b in block ==> cache[b] == old(cache[b])
        invariant HomeContents(L, disk) == old(HomeContents(L, disk)) && Recovered(L, disk) == image
        invariant crashes == old(crashes) + Repeat(image, tail)
      {
        WriteLogBlock(tail);
        assert Repeat(image, tail + 1) == Repeat(image, tail) + [image];
        tail := tail + 1;
      }
    }

    method WriteHead()
      requires Valid() && (L.start in cache ==> cache[L.start] == disk[L.start])
      modifies this`cache, this`disk, this`crashes
      ensures Valid() && Decode(disk[L.start]) == block
      ensures disk == old(disk)[L.start := disk[L.start]] && cache == old(cache)[L.start := disk[L.start]]
      ensures HomeContents(L, disk) == old(HomeContents(L, disk))
      ensures crashes == old(crashes) + [Recovered(L, disk)]
    {
      var hb := Bread(L.start);
      HeadWritten(L, disk, hb, block, disk[L.start := Encode(hb, block)]);
      Bwrite(L.start, Encode(hb, block));
    }

    /** One turn of the loop in `install_trans`. */
    method InstallBlock(tail: nat)
      requires Valid() && Decode(disk[L.start]) == block && tail < |block| && Installed(L, disk, tail)
      requires CleanBut(cache, disk, block[tail..])
      modifies this`cache, this`disk, this`crashes
      ensures Valid() && disk[L.start] == old(disk[L.start]) && Installed(L, disk, tail + 1)
      ensures CleanBut(cache, disk, block[tail + 1..])
      ensures Recovered(L, disk) == old(Recovered(L, disk)) && crashes == old(crashes) + [Recovered(L, disk)]
    {
      NotLogged(L, block, tail);
      var lbuf := ReadBoth(L.start + tail + 1, block[tail], block[tail..]);
      InstallOne(L, disk, disk[block[tail] := lbuf], block, tail);
      InstallClean(cache, disk, block, tail, lbuf);
      Bwrite(block[tail], lbuf);
    }

    /** The two reads of the turn: the log block, and the block it belongs to. */
    method ReadBoth(from: nat, to: nat, ghost dirty: seq<nat>) returns (lbuf: Block)
      requires Valid() && from < L.blocks && to < L.blocks && from !in dirty && CleanBut(cache, disk, dirty)
      modifies this`cache
      ensures Valid() && lbuf == disk[from] && CleanBut(cache, disk, dirty)
    {
      ghost var c0 := cache;
      lbuf := Bread(from);
      ReadClean(c0, disk, dirty, from, lbuf);
      ghost var c1 := cache;
      var dbuf := Bread(to);
      ReadClean(c1, disk, dirty, to, dbuf);
    }

    /** `install_trans` copies the committed blocks home; a crash after any of its writes
        is repaired by the next recovery. */
    method InstallTrans()
      requires Valid() && Decode(disk[L.start]) == block
      requires CleanBut(cache, disk, block)
      modifies this`cache, this`disk, this`crashes
      ensures Valid() && disk[L.start] == old(disk[L.start])
      ensures CleanBut(cache, disk, [])
      ensures HomeContents(L, disk) == Recovered(L, disk) == old(Recovered(L, disk))
      ensures crashes == old(crashes) + Repeat(old(Recovered(L, disk)), |block|)
    {
      ghost var image := Recovered(L, disk);
      var tail := 0;
      assert block[0..] == block;
      while tail < |block|
        invariant 0 <= tail <= |block|
        invariant Valid() && disk[L.start] == old(disk[L.start]) && Installed(L, disk, tail)
        invariant CleanBut(cache, disk, block[tail..])
        invariant Recovered(L, disk) == image
        invariant crashes == old(crashes) + Repeat(image, tail)
      {
        InstallBlock(tail);
        assert Repeat(image, tail + 1) == Repeat(image, tail) + [image];
        tail := tail + 1;
      }
      assert block[tail..] == [];
      InstalledIsRecovered(L, disk);
    }

    method ReadHead()
      requires Valid() && CleanBut(cache, disk, [])
      modifies this`cache, this`block
      ensures Valid() && block == Decode(disk[L.start]) && CleanBut(cache, disk, [])
    {
      var buf := Bread(L.start);
      block := Decode(buf);
    }

    /** `recover_from_log`: the home blocks become what the disk and its log stand for, and
        a crash after any of the writes would be recovered to the same blocks. */
    method RecoverFromLog()
      requires Valid() && CleanBut(cache, disk, [])
      modifies this`cache, this`disk, this`block, this`crashes
      ensures Valid() && Coherent() && block == [] && Decode(disk[L.start]) == []
      ensures HomeContents(L, disk) == old(Recovered(L, disk))
      ensures crashes == old(crashes) + Repeat(old(Recovered(L, disk)), |old(Decode(disk[L.start]))| + 1)
    {
      ReadHead();
      InstallAndClear();
      assert Repeat(old(Recovered(L, disk)), |old(Decode(disk[L.start]))| + 1)
          == Repeat(old(Recovered(L, disk)), |old(Decode(disk[L.start]))|) + [old(Recovered(L, disk))];
    }

    /** The first half of `commit`: up to and including the header write, whose crash image
        is the first that holds the transaction. */
    method CommitLog()
      requires Valid() && Coherent() && Decode(disk[L.start]) == []
      modifies this`cache, this`disk, this`crashes
      ensures Valid() && Decode(disk[L.start]) == block
      ensures CleanBut(cache, disk, block)
      ensures Recovered(L, disk) == old(Live())
      ensures crashes == old(crashes) + Repeat(old(Recovered(L, disk)), |block|) + [old(Live())]
    {
      ghost var live := Live();
      LiveSplits();
      WriteLog();
      WriteHead();
      CommitIsDurable(live);
    }

    /** The second half: install, then erase the transaction from the log. */
    method InstallAndClear()
      requires Valid() && Decode(disk[L.start]) == block
      requires CleanBut(cache, disk, block)
      modifies this`cache, this`disk, this`block, this`crashes
      ensures Valid() && Coherent() && block == [] && Decode(disk[L.start]) == []
      ensures HomeContents(L, disk) == old(Recovered(L, disk))
      ensures crashes == old(crashes) + Repeat(old(Recovered(L, disk)), |old(block)|) + [old(Recovered(L, disk))]
    {
      InstallTrans();
      block := [];
      WriteHead();
      assert Installed(L, disk, 0);
      InstalledIsRecovered(L, disk);
    }

    /** `commit`: a crash before the header write leaves the old blocks, from the header
        write on it leaves everything the operations wrote. */
    method Commit()
      requires Valid() && Coherent() && Decode(disk[L.start]) == []
      modifies this`cache, this`disk, this`block, this`crashes
      ensures Valid() && Coherent() && block == [] && Decode(disk[L.start]) == []
      ensures HomeContents(L, disk) == old(Live())
      ensures old(block) == [] ==> crashes == old(crashes)
      ensures old(block) != [] ==>
        crashes == old(crashes) + Repeat(old(Recovered(L, disk)), |old(block)|) + Repeat(old(Live()), |old(block)| + 2)
    {
      if |block| > 0 {
        CommitLog();
        InstallAndClear();
        RepeatSplits(old(Live()), |old(block)|);
      } else {
        LiveSplits();
        assert HomeContents(L, disk) == Live();
      }
    }

    lemma LiveSplits()
      requires Valid() && Coherent()
      ensures Live().Keys == HomeContents(L, disk).Keys
      ensures forall k :: 0 <= k < |block| ==> block[k] in Live() && Live()[block[k]] == cache[block[k]]
      ensures forall b :: b in Live() && b !in block ==> Live()[b] == HomeContents(L, disk)[b]
    {
    }

    lemma CommitIsDurable(live: map<nat, Block>)
      requires Valid() && Decode(disk[L.start]) == block && live.Keys == HomeContents(L, disk).Keys
      requires forall k :: 0 <= k < |block| ==> block[k] in live && disk[L.start + 1 + k] == live[block[k]]
      requires forall b :: b in live && b !in block ==> HomeContents(L, disk)[b] == live[b]
      ensures Recovered(L, disk) == live
    {
      CommitPoint(L, disk, live);
    }
  }
}
