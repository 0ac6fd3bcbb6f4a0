/** The driver side of the disk's virtqueue (kernel/virtio_disk.c) against a device that
    takes every available chain and completes it once, with status 0, in any order
    (sections 2.6 and 5.2 of VIRTIO version 1.1). */
module Virtqueue {
  import opened Common

  const NUM := 8
  const F_NEXT := 1
  const F_WRITE := 2
  /** The ring indices are 16 bits wide. */
  const IDX := 0x1_0000

  datatype Addr = Null | Op(i: nat) | DataOf(b: nat) | Status(i: nat)
  datatype Desc = Desc(addr: Addr, len: nat, flags: nat, next: nat)
  datatype OpHeader = OpHeader(kind: nat, sector: nat)
  datatype Info = Info(b: nat, status: nat)

  const ZeroDesc := Desc(Null, 0, 0, 0)

  /** Who has a descriptor: nobody, code that is about to use or free it, or a request. */
  datatype Role = Unused | Held | Head | Mid(h: nat) | Tail(h: nat)

  /** The way of a request: put in the available ring, taken by the device, put in the used
      ring, seen by the interrupt handler. */
  datatype Stage = Posted | Working | Done | Seen

  datatype Request = Request(b: nat, write: bool, block: nat, no: nat)

  // ---- descriptors ----

  predicate RoleOk(desc: seq<Desc>, free: seq<bool>, role: seq<Role>, req: map<nat, Request>, d: nat)
    requires |desc| == NUM && |free| == NUM && |role| == NUM && d < NUM
  {
    && (free[d] <==> role[d].Unused?) && (role[d].Head? <==> d in req)
    && (role[d].Unused? ==> desc[d] == ZeroDesc)
    && (role[d].Mid? ==> role[d].h < NUM && role[role[d].h].Head? && desc[role[d].h].next == d)
    && (role[d].Tail? ==> role[d].h < NUM && role[role[d].h].Head? && desc[role[d].h].next < NUM
                          && role[desc[role[d].h].next] == Mid(role[d].h) && desc[desc[role[d].h].next].next == d)
  }

  /** The chain at h is what section 5.2 asks of the request: header, data, status. */
  predicate ChainOk(desc: seq<Desc>, ops: seq<OpHeader>, info: seq<Info>, role: seq<Role>, req: map<nat, Request>, h: nat)
    requires |desc| == NUM && |ops| == NUM && |info| == NUM && |role| == NUM && h in req
  {
    && h < NUM && role[h].Head? && desc[h].next < NUM && desc[desc[h].next].next < NUM
    && role[desc[h].next] == Mid(h) && role[desc[desc[h].next].next] == Tail(h)
    && desc[h] == Desc(Op(h), 16, F_NEXT, desc[h].next)
    && desc[desc[h].next] == Desc(DataOf(req[h].b), 1024, if req[h].write then F_NEXT else F_WRITE + F_NEXT, desc[desc[h].next].next)
    && desc[desc[desc[h].next].next] == Desc(Status(h), 1, F_WRITE, 0)
    && ops[h] == OpHeader(if req[h].write then 1 else 0, req[h].block * 2)
    && info[h].b == req[h].b && req[h].b != 0
  }

  /** Free descriptors and chains of three partition the table. */
  ghost predicate TableOk(desc: seq<Desc>, free: seq<bool>, ops: seq<OpHeader>, info: seq<Info>, role: seq<Role>, req: map<nat, Request>) {
    && |desc| == NUM && |free| == NUM && |ops| == NUM && |info| == NUM && |role| == NUM
    && (forall d {:trigger RoleOk(desc, free, role, req, d)} :: 0 <= d < NUM ==> RoleOk(desc, free, role, req, d))
    && (forall h {:trigger ChainOk(desc, ops, info, role, req, h)} :: h in req ==> ChainOk(desc, ops, info, role, req, h))
  }

  predicate IsHeld(role: seq<Role>, d: nat) {
    d < |role| && role[d].Held?
  }

  /** The descriptors that are between uses. */
  ghost predicate HeldAre(role: seq<Role>, held: seq<nat>) {
    forall d: nat {:trigger IsHeld(role, d)} :: IsHeld(role, d) <==> d in held
  }

  lemma SetHeld(desc: seq<Desc>, free: seq<bool>, ops: seq<OpHeader>, info: seq<Info>, role: seq<Role>, req: map<nat, Request>, d: nat, x: Desc)
    requires TableOk(desc, free, ops, info, role, req) && IsHeld(role, d)
    ensures TableOk(desc[d := x], free, ops, info, role, req)
  {
    var desc' := desc[d := x];
    forall e | 0 <= e < NUM ensures RoleOk(desc', free, role, req, e) {
      assert RoleOk(desc, free, role, req, e);
    }
    forall h | h in req ensures ChainOk(desc', ops, info, role, req, h) {
      assert ChainOk(desc, ops, info, role, req, h);
    }
  }

  lemma SetFree(desc: seq<Desc>, free: seq<bool>, ops: seq<OpHeader>, info: seq<Info>, role: seq<Role>, req: map<nat, Request>, d: nat, v: bool)
    requires TableOk(desc, free, ops, info, role, req) && d < NUM && role[d] == (if v then Held else Unused) && (v ==> desc[d] == ZeroDesc)
    ensures TableOk(desc, free[d := v], ops, info, role[d := if v then Unused else Held], req)
  {
    var free', role' := free[d := v], role[d := if v then Unused else Held];
    forall e | 0 <= e < NUM ensures RoleOk(desc, free', role', req, e) {
      assert RoleOk(desc, free, role, req, e);
    }
    forall h | h in req ensures ChainOk(desc, ops, info, role', req, h) {
      assert ChainOk(desc, ops, info, role, req, h);
    }
  }

  /** What the driver writes into three descriptors, the header and the record of a request. */
  predicate Spelled(desc: seq<Desc>, ops: seq<OpHeader>, info: seq<Info>, h: nat, m: nat, t: nat, r: Request) {
    && h != m && h != t && m != t && h < |desc| && m < |desc| && t < |desc| && h < |ops| && h < |info|
    && desc[h] == Desc(Op(h), 16, F_NEXT, m)
    && desc[m] == Desc(DataOf(r.b), 1024, if r.write then F_NEXT else F_WRITE + F_NEXT, t)
    && desc[t] == Desc(Status(h), 1, F_WRITE, 0)
    && ops[h] == OpHeader(if r.write then 1 else 0, r.block * 2) && info[h] == Info(r.b, 0xff)
  }

  /** Three held descriptors become the chain of a request. */
  lemma MakeChain(desc: seq<Desc>, free: seq<bool>, ops: seq<OpHeader>, info: seq<Info>, role: seq<Role>, req: map<nat, Request>,
                  h: nat, m: nat, t: nat, r: Request)
    requires TableOk(desc, free, ops, info, role, req) && Spelled(desc, ops, info, h, m, t, r) && r.b != 0
    requires IsHeld(role, h) && IsHeld(role, m) && IsHeld(role, t)
    ensures h !in req && TableOk(desc, free, ops, info, role[h := Head][m := Mid(h)][t := Tail(h)], req[h := r])
  {
    var role', req' := role[h := Head][m := Mid(h)][t := Tail(h)], req[h := r];
    assert RoleOk(desc, free, role, req, h);
    forall d | 0 <= d < NUM ensures RoleOk(desc, free, role', req', d) {
      assert RoleOk(desc, free, role, req, d);
    }
    forall g | g in req' ensures ChainOk(desc, ops, info, role', req', g) {
      assert g != h ==> ChainOk(desc, ops, info, role, req, g);
    }
  }

  /** The header and the record of a held descriptor belong to no request. */
  lemma SetRecord(desc: seq<Desc>, free: seq<bool>, ops: seq<OpHeader>, info: seq<Info>, role: seq<Role>, req: map<nat, Request>,
                  d: nat, op: OpHeader, x: Info)
    requires TableOk(desc, free, ops, info, role, req) && IsHeld(role, d)
    ensures d < NUM && d !in req && TableOk(desc, free, ops[d := op], info[d := x], role, req)
  {
    assert RoleOk(desc, free, role, req, d);
    var ops', info' := ops[d := op], info[d := x];
    forall h | h in req ensures ChainOk(desc, ops', info', role, req, h) {
      assert ChainOk(desc, ops, info, role, req, h);
    }
  }

  /** A request gives its chain up for freeing. */
  lemma BreakChain(desc: seq<Desc>, free: seq<bool>, ops: seq<OpHeader>, info: seq<Info>, role: seq<Role>, req: map<nat, Request>, h: nat, x: Info)
    requires TableOk(desc, free, ops, info, role, req) && h in req
    ensures ChainOk(desc, ops, info, role, req, h)
    ensures TableOk(desc, free, ops, info[h := x], role[h := Held][desc[h].next := Held][desc[desc[h].next].next := Held], req - {h})
  {
    assert ChainOk(desc, ops, info, role, req, h);
    var role' := role[h := Held][desc[h].next := Held][desc[desc[h].next].next := Held];
    var req', info' := req - {h}, info[h := x];
    forall d | 0 <= d < NUM ensures RoleOk(desc, free, role', req', d) {
      assert RoleOk(desc, free, role, req, d);
    }
    forall g | g in req' ensures ChainOk(desc, ops, info', role', req', g) {
      assert ChainOk(desc, ops, info, role, req, g);
    }
  }

  /** The device writes the status of a request. */
  lemma SetStatus(desc: seq<Desc>, free: seq<bool>, ops: seq<OpHeader>, info: seq<Info>, role: seq<Role>, req: map<nat, Request>, h: nat)
    requires TableOk(desc, free, ops, info, role, req) && h < NUM
    ensures TableOk(desc, free, ops, info[h := Info(info[h].b, 0)], role, req)
  {
    var info' := info[h := Info(info[h].b, 0)];
    forall g | g in req ensures ChainOk(desc, ops, info', role, req, g) {
      assert ChainOk(desc, ops, info, role, req, g);
    }
  }

  // ---- rings ----

  predicate SlotOk(ring: seq<nat>, lo: nat, q: seq<nat>, i: nat)
    requires |ring| == NUM && i < |q|
  {
    ring[(lo + i) % NUM] == q[i]
  }

  /** The entries of the ring from number lo on are those of q. */
  ghost predicate RingOk(ring: seq<nat>, lo: nat, q: seq<nat>) {
    && |ring| == NUM && |q| <= NUM
    && forall i {:trigger SlotOk(ring, lo, q, i)} :: 0 <= i < |q| ==> SlotOk(ring, lo, q, i)
  }

  lemma RingPush(ring: seq<nat>, lo: nat, q: seq<nat>, hi: nat, x: nat)
    requires RingOk(ring, lo, q) && hi == lo + |q| && |q| < NUM
    ensures RingOk(ring[hi % NUM := x], lo, q + [x])
  {
    var ring', q' := ring[hi % NUM := x], q + [x];
    forall i | 0 <= i < |q'| ensures SlotOk(ring', lo, q', i) {
      if i < |q| {
        assert SlotOk(ring, lo, q, i);
        assert (lo + i) % NUM != (lo + |q|) % NUM;
      }
    }
  }

  lemma RingPrefix(ring: seq<nat>, lo: nat, q: seq<nat>, x: nat)
    requires RingOk(ring, lo, q + [x])
    ensures RingOk(ring, lo, q)
  {
    var q' := q + [x];
    forall i | 0 <= i < |q| ensures SlotOk(ring, lo, q, i) {
      assert SlotOk(ring, lo, q', i);
    }
  }

  lemma RingPop(ring: seq<nat>, lo: nat, q: seq<nat>)
    requires RingOk(ring, lo, q) && q != []
    ensures ring[lo % NUM] == q[0] && RingOk(ring, lo + 1, q[1..])
  {
    assert SlotOk(ring, lo, q, 0);
    var q', lo' := q[1..], lo + 1;
    forall i | 0 <= i < |q'| ensures SlotOk(ring, lo', q', i) {
      assert SlotOk(ring, lo, q, i + 1);
      assert lo' + i == lo + (i + 1);
    }
  }

  /** Wrapping counters that are at most NUM apart are equal only if they are the same. */
  lemma WrapEqual(s: nat, n: nat)
    requires n <= NUM
    ensures s % IDX == (s + n) % IDX <==> n == 0
    ensures (s % IDX) % NUM == s % NUM && (s % IDX + 1) % IDX == (s + 1) % IDX
  {
  }

  // ---- requests ----

  /** A ring has room for a head that is not in it. */
  lemma Room(q: seq<nat>, h: nat)
    requires NoDup(q) && h < NUM && h !in q && forall x :: x in q ==> x < NUM
    ensures |q| < NUM
  {
    NoDupSize(q);
    var all: set<nat> := {0, 1, 2, 3, 4, 5, 6, 7};
    SubsetSize(Elems(q), all - {h});
  }

  predicate QueueAt(stage: map<nat, Stage>, q: seq<nat>, g: Stage, h: nat) {
    h in q <==> h in stage && stage[h] == g
  }

  /** A queue holds exactly the requests of one stage, each once. */
  ghost predicate QueueOk(stage: map<nat, Stage>, q: seq<nat>, g: Stage) {
    NoDup(q) && forall h: nat {:trigger QueueAt(stage, q, g, h)} :: QueueAt(stage, q, g, h)
  }

  lemma QueuePush(stage: map<nat, Stage>, q: seq<nat>, g: Stage, h: nat)
    requires QueueOk(stage, q, g) && !(h in stage && stage[h] == g)
    ensures QueueOk(stage[h := g], q + [h], g)
  {
    assert QueueAt(stage, q, g, h);
    NoDupPush(q, h);
    var stage', q' := stage[h := g], q + [h];
    forall x: nat ensures QueueAt(stage', q', g, x) {
      assert QueueAt(stage, q, g, x);
    }
  }

  lemma QueuePop(stage: map<nat, Stage>, q: seq<nat>, g: Stage, to: Stage)
    requires QueueOk(stage, q, g) && q != [] && to != g
    ensures q[0] in stage && stage[q[0]] == g && QueueOk(stage[q[0] := to], q[1..], g)
  {
    NoDupPop(q);
    assert QueueAt(stage, q, g, q[0]);
    var stage', q' := stage[q[0] := to], q[1..];
    forall x: nat ensures QueueAt(stage', q', g, x) {
      assert QueueAt(stage, q, g, x);
    }
  }

  lemma QueueKeep(stage: map<nat, Stage>, q: seq<nat>, g: Stage, h: nat, stage': map<nat, Stage>)
    requires QueueOk(stage, q, g) && !(h in stage && stage[h] == g)
    requires stage' == stage - {h} || (h in stage' && stage'[h] != g && stage' == stage[h := stage'[h]])
    ensures QueueOk(stage', q, g)
  {
    forall x: nat ensures QueueAt(stage', q, g, x) {
      assert QueueAt(stage, q, g, x);
    }
  }

  predicate WorkAt(stage: map<nat, Stage>, w: set<nat>, h: nat) {
    h in w <==> h in stage && stage[h] == Working
  }

  ghost predicate WorkOk(stage: map<nat, Stage>, w: set<nat>) {
    forall h: nat {:trigger WorkAt(stage, w, h)} :: WorkAt(stage, w, h)
  }

  lemma WorkMove(stage: map<nat, Stage>, w: set<nat>, h: nat, stage': map<nat, Stage>, w': set<nat>)
    requires WorkOk(stage, w) && (stage' == stage - {h} || (h in stage' && stage' == stage[h := stage'[h]]))
    requires if h in stage' && stage'[h] == Working then w' == w + {h}
             else w' == w - {h} || (w' == w && !(h in stage && stage[h] == Working))
    ensures WorkOk(stage', w')
  {
    assert WorkAt(stage, w, h);
    forall x: nat ensures WorkAt(stage', w', x) {
      assert WorkAt(stage, w, x);
    }
  }

  /** A buffer is marked busy exactly until the handler has seen its request done; `holder`
      and `open` lead back from the buffer and from the number to the request. */
  predicate RequestOk(req: map<nat, Request>, stage: map<nat, Stage>, info: seq<Info>, busy: map<nat, bool>,
                      holder: map<nat, nat>, open: map<nat, nat>, h: nat)
    requires h in req
  {
    && h in stage && h < |info| && req[h].b in busy && busy[req[h].b] == (stage[h] != Seen)
    && (stage[h] == Done || stage[h] == Seen ==> info[h].status == 0)
    && req[h].b in holder && holder[req[h].b] == h
    && (stage[h] != Seen ==> req[h].no in open && open[req[h].no] == h)
  }

  /** A number below n is that of an open request, or of one that was completed. */
  predicate NumberOk(req: map<nat, Request>, stage: map<nat, Stage>, open: map<nat, nat>, completed: seq<nat>, n: nat, r: nat) {
    && (r < n <==> r in open || r in completed) && !(r in open && r in completed)
    && (r in open ==> open[r] in req && open[r] in stage && stage[open[r]] != Seen && req[open[r]].no == r)
  }

  ghost predicate RequestsOk(req: map<nat, Request>, stage: map<nat, Stage>, info: seq<Info>, busy: map<nat, bool>,
                             holder: map<nat, nat>, open: map<nat, nat>, completed: seq<nat>, n: nat)
  {
    && stage.Keys == req.Keys && NoDup(completed)
    && (forall h {:trigger RequestOk(req, stage, info, busy, holder, open, h)} :: h in req ==> RequestOk(req, stage, info, busy, holder, open, h))
    && (forall r: nat {:trigger NumberOk(req, stage, open, completed, n, r)} :: NumberOk(req, stage, open, completed, n, r))
  }

  lemma AddRequest(req: map<nat, Request>, stage: map<nat, Stage>, info: seq<Info>, busy: map<nat, bool>,
                   holder: map<nat, nat>, open: map<nat, nat>, completed: seq<nat>, n: nat, h: nat, r: Request)
    requires RequestsOk(req, stage, info, busy, holder, open, completed, n) && h !in req && h < |info| && r.no == n && r.b !in holder
    ensures RequestsOk(req[h := r], stage[h := Posted], info[h := Info(r.b, 0xff)], busy[r.b := true],
                       holder[r.b := h], open[n := h], completed, n + 1)
  {
    var req', stage', info', busy' := req[h := r], stage[h := Posted], info[h := Info(r.b, 0xff)], busy[r.b := true];
    var holder', open' := holder[r.b := h], open[n := h];
    assert NumberOk(req, stage, open, completed, n, n);
    forall g | g in req' ensures RequestOk(req', stage', info', busy', holder', open', g) {
      if g != h {
        assert RequestOk(req, stage, info, busy, holder, open, g);
        assert stage[g] != Seen ==> NumberOk(req, stage, open, completed, n, req[g].no);
      }
    }
    var n' := n + 1;
    forall x: nat ensures NumberOk(req', stage', open', completed, n', x) {
      assert NumberOk(req, stage, open, completed, n, x);
    }
  }

  lemma OtherInfo(req: map<nat, Request>, stage: map<nat, Stage>, info: seq<Info>, busy: map<nat, bool>,
                  holder: map<nat, nat>, open: map<nat, nat>, completed: seq<nat>, n: nat, d: nat, x: Info)
    requires RequestsOk(req, stage, info, busy, holder, open, completed, n) && d !in req && d < |info|
    ensures RequestsOk(req, stage, info[d := x], busy, holder, open, completed, n)
  {
    var info' := info[d := x];
    forall h | h in req ensures RequestOk(req, stage, info', busy, holder, open, h) {
      assert RequestOk(req, stage, info, busy, holder, open, h);
    }
  }

  lemma OtherBuffer(req: map<nat, Request>, stage: map<nat, Stage>, info: seq<Info>, busy: map<nat, bool>,
                    holder: map<nat, nat>, open: map<nat, nat>, completed: seq<nat>, n: nat, b: nat)
    requires RequestsOk(req, stage, info, busy, holder, open, completed, n) && b !in holder
    ensures RequestsOk(req, stage, info, busy[b := true], holder, open, completed, n)
  {
    var busy' := busy[b := true];
    forall h | h in req ensures RequestOk(req, stage, info, busy', holder, open, h) {
      assert RequestOk(req, stage, info, busy, holder, open, h);
    }
  }

  /** A request moves on to Working or Done. */
  lemma MoveRequest(req: map<nat, Request>, stage: map<nat, Stage>, info: seq<Info>, busy: map<nat, bool>,
                    holder: map<nat, nat>, open: map<nat, nat>, completed: seq<nat>, n: nat, h: nat, to: Stage, info': seq<Info>)
    requires RequestsOk(req, stage, info, busy, holder, open, completed, n) && h in req && stage[h] != Seen && h < |info|
    requires to == Working || to == Done
    requires info' == if to == Done then info[h := Info(info[h].b, 0)] else info
    ensures RequestsOk(req, stage[h := to], info', busy, holder, open, completed, n)
  {
    var stage' := stage[h := to];
    forall g | g in req ensures RequestOk(req, stage', info', busy, holder, open, g) {
      assert RequestOk(req, stage, info, busy, holder, open, g);
    }
    forall x: nat ensures NumberOk(req, stage', open, completed, n, x) {
      assert NumberOk(req, stage, open, completed, n, x);
    }
  }

  lemma SeeRequest(req: map<nat, Request>, stage: map<nat, Stage>, info: seq<Info>, busy: map<nat, bool>,
                   holder: map<nat, nat>, open: map<nat, nat>, completed: seq<nat>, n: nat, h: nat)
    requires RequestsOk(req, stage, info, busy, holder, open, completed, n) && h in stage && stage[h] == Done
    ensures h in req && req[h].no !in completed
    ensures RequestsOk(req, stage[h := Seen], info, busy[req[h].b := false], holder, open - {req[h].no}, completed + [req[h].no], n)
  {
    var r := req[h].no;
    var stage', busy', open', completed' := stage[h := Seen], busy[req[h].b := false], open - {r}, completed + [r];
    assert RequestOk(req, stage, info, busy, holder, open, h) && NumberOk(req, stage, open, completed, n, r);
    NoDupPush(completed, r);
    forall g | g in req ensures RequestOk(req, stage', info, busy', holder, open', g) {
      assert RequestOk(req, stage, info, busy, holder, open, g);
    }
    forall x: nat ensures NumberOk(req, stage', open', completed', n, x) {
      assert NumberOk(req, stage, open, completed, n, x);
    }
  }

  lemma DropRequest(req: map<nat, Request>, stage: map<nat, Stage>, info: seq<Info>, busy: map<nat, bool>,
                    holder: map<nat, nat>, open: map<nat, nat>, completed: seq<nat>, n: nat, h: nat, x: Info)
    requires RequestsOk(req, stage, info, busy, holder, open, completed, n) && h in req && stage[h] == Seen && h < |info|
    ensures RequestsOk(req - {h}, stage - {h}, info[h := x], busy, holder - {req[h].b}, open, completed, n)
  {
    var req', stage', info', holder' := req - {h}, stage - {h}, info[h := x], holder - {req[h].b};
    assert RequestOk(req, stage, info, busy, holder, open, h);
    forall g | g in req' ensures RequestOk(req', stage', info', busy, holder', open, g) {
      assert RequestOk(req, stage, info, busy, holder, open, g);
    }
    forall y: nat ensures NumberOk(req', stage', open, completed, n, y) {
      assert NumberOk(req, stage, open, completed, n, y);
    }
  }

  /** The number of free descriptors. */
  function Count(free: seq<bool>): nat {
    if free == [] then 0 else Count(free[..|free| - 1]) + if free[|free| - 1] then 1 else 0
  }

  lemma {:induction false} CountSet(free: seq<bool>, i: nat, v: bool)
    requires i < |free| && free[i] == !v
    ensures Count(free[i := v]) == if v then Count(free) + 1 else Count(free) - 1
  {
    var n := |free| - 1;
    if i < n {
      assert free[i := v][..n] == free[..n][i := v];
      CountSet(free[..n], i, v);
    } else {
      assert free[i := v][..n] == free[..n];
    }
  }

  lemma {:induction false} CountNone(free: seq<bool>)
    requires forall i :: 0 <= i < |free| ==> !free[i]
    ensures Count(free) == 0
  {
    if free != [] {
      CountNone(free[..|free| - 1]);
    }
  }

  lemma {:induction false} CountAll(free: seq<bool>)
    requires forall i :: 0 <= i < |free| ==> free[i]
    ensures Count(free) == |free|
  {
    if free != [] {
      CountAll(free[..|free| - 1]);
    }
  }

  predicate TookAt(free0: seq<bool>, role0: seq<Role>, free: seq<bool>, role: seq<Role>, idx: seq<nat>, d: nat)
    requires |free0| == |role0| == |free| == |role| == NUM && d < NUM
  {
    if d in idx then role0[d].Unused? && free0[d] && role[d].Held? && !free[d] else role[d] == role0[d] && free[d] == free0[d]
  }

  /** The descriptors of idx were free and are held; nothing else changed. */
  ghost predicate Took(free0: seq<bool>, role0: seq<Role>, free: seq<bool>, role: seq<Role>, idx: seq<nat>) {
    && |free0| == |role0| == |free| == |role| == NUM && NoDup(idx) && (forall x :: x in idx ==> x < NUM)
    && forall d {:trigger TookAt(free0, role0, free, role, idx, d)} :: 0 <= d < NUM ==> TookAt(free0, role0, free, role, idx, d)
  }

  lemma TookOne(free0: seq<bool>, role0: seq<Role>, free: seq<bool>, role: seq<Role>, idx: seq<nat>, x: nat)
    requires Took(free0, role0, free, role, idx) && x < NUM && role[x].Unused? && free[x]
    ensures Took(free0, role0, free[x := false], role[x := Held], idx + [x])
  {
    var free', role', idx' := free[x := false], role[x := Held], idx + [x];
    assert TookAt(free0, role0, free, role, idx, x);
    NoDupPush(idx, x);
    forall d | 0 <= d < NUM ensures TookAt(free0, role0, free', role', idx', d) {
      assert TookAt(free0, role0, free, role, idx, d);
    }
  }

  lemma GaveOne(free0: seq<bool>, role0: seq<Role>, free: seq<bool>, role: seq<Role>, idx: seq<nat>)
    requires Took(free0, role0, free, role, idx) && idx != []
    ensures idx[0] < NUM && role[idx[0]].Held? && role0[idx[0]].Unused?
    ensures Took(free0, role0, free[idx[0] := true], role[idx[0] := Unused], idx[1..])
  {
    var x, idx' := idx[0], idx[1..];
    NoDupPop(idx);
    assert TookAt(free0, role0, free, role, idx, x);
    var free', role' := free[x := true], role[x := Unused];
    forall d | 0 <= d < NUM ensures TookAt(free0, role0, free', role', idx', d) {
      assert TookAt(free0, role0, free, role, idx, d);
    }
  }

  lemma TookNone(free0: seq<bool>, role0: seq<Role>, free: seq<bool>, role: seq<Role>)
    requires Took(free0, role0, free, role, [])
    ensures free == free0 && role == role0
  {
    forall d | 0 <= d < NUM ensures free[d] == free0[d] && role[d] == role0[d] {
      assert TookAt(free0, role0, free, role, [], d);
    }
  }

  lemma TookHeld(free0: seq<bool>, role0: seq<Role>, free: seq<bool>, role: seq<Role>, idx: seq<nat>)
    requires Took(free0, role0, free, role, idx) && HeldAre(role0, [])
    ensures HeldAre(role, idx)
  {
    forall d: nat ensures IsHeld(role, d) <==> d in idx {
      assert d < NUM ==> TookAt(free0, role0, free, role, idx, d);
      assert IsHeld(role0, d) <==> d in [];
    }
  }

  type Data = nat

  function Lookup(m: map<nat, Data>, k: nat): Data {
    if k in m then m[k] else 0
  }

  /** `struct disk` in memory, with the index of the device into the available ring and the
      chains it is working on. */
  datatype Queue = Queue(desc: seq<Desc>, free: seq<bool>, ops: seq<OpHeader>, info: seq<Info>, availRing: seq<nat>, takenIdx: nat,
                         availIdx: nat, usedRing: seq<nat>, lookedIdx: nat, usedIdx: nat, working: set<nat>)

  /** What the queue stands for.  `taken` and `looked` count ring entries without wrapping. */
  datatype Book = Book(role: seq<Role>, req: map<nat, Request>, stage: map<nat, Stage>, posted: seq<nat>, taken: nat, done: seq<nat>, looked: nat,
                       holder: map<nat, nat>, open: map<nat, nat>, completed: seq<nat>, n: nat)

  ghost predicate Table(q: Queue, g: Book) {
    TableOk(q.desc, q.free, q.ops, q.info, g.role, g.req)
  }

  ghost predicate Requests(q: Queue, g: Book, busy: map<nat, bool>) {
    RequestsOk(g.req, g.stage, q.info, busy, g.holder, g.open, g.completed, g.n)
  }

  ghost predicate Rings(q: Queue, g: Book) {
    RingsOk(q.availRing, q.takenIdx, q.availIdx, g.taken, g.posted, q.usedRing, q.lookedIdx, q.usedIdx, g.looked, g.done, g.stage)
  }

  /** The invariant between any two steps of driver and device, also while the driver is about
      to use or free some descriptors. */
  ghost predicate Steady(q: Queue, g: Book, busy: map<nat, bool>) {
    Table(q, g) && Requests(q, g, busy) && Rings(q, g) && WorkOk(g.stage, q.working)
  }

  ghost predicate Inv(q: Queue, g: Book, busy: map<nat, bool>) {
    Steady(q, g, busy) && HeldAre(g.role, [])
  }

  // ---- what the device may do meanwhile ----

  datatype Act = TakeNext | Complete(h: nat)

  /** What the device does at point number i of the driver's code. */
  function At(acts: seq<seq<Act>>, i: nat): seq<Act> {
    if i < |acts| then acts[i] else []
  }

  predicate Later(a: Stage, b: Stage) {
    a == b || (a == Posted && b != Seen) || (a == Working && b == Done)
  }

  /** The request at h, if there is one, is still there and has moved on or not. */
  predicate Moved(stage: map<nat, Stage>, stage': map<nat, Stage>, h: nat) {
    h in stage ==> h in stage' && Later(stage[h], stage'[h])
  }

  ghost predicate AllMoved(stage: map<nat, Stage>, stage': map<nat, Stage>) {
    forall h: nat {:trigger Moved(stage, stage', h)} :: Moved(stage, stage', h)
  }

  lemma MovedTrans(a: map<nat, Stage>, b: map<nat, Stage>, c: map<nat, Stage>)
    requires AllMoved(a, b) && AllMoved(b, c)
    ensures AllMoved(a, c)
  {
    forall h: nat ensures Moved(a, c, h) {
      assert Moved(a, b, h) && Moved(b, c, h);
    }
  }

  /** The device moves requests on and reports them.  It leaves descriptors, headers, the
      available ring and the records of other descriptors alone. */
  ghost predicate DeviceOnly(q: Queue, g: Book, q': Queue, g': Book) {
    && q' == q.(info := q'.info, takenIdx := q'.takenIdx, usedRing := q'.usedRing, usedIdx := q'.usedIdx, working := q'.working)
    && g' == g.(stage := g'.stage, posted := g'.posted, taken := g'.taken, done := g'.done)
    && g.done <= g'.done && |q'.info| == |q.info| && g'.stage.Keys == g.stage.Keys
    && (forall x {:trigger q'.info[x]} :: 0 <= x < |q.info| && x !in g.stage ==> q'.info[x] == q.info[x])
    && AllMoved(g.stage, g'.stage)
  }

  lemma DeviceOnlyTrans(q0: Queue, g0: Book, q1: Queue, g1: Book, q2: Queue, g2: Book)
    requires DeviceOnly(q0, g0, q1, g1) && DeviceOnly(q1, g1, q2, g2)
    ensures DeviceOnly(q0, g0, q2, g2)
  {
    MovedTrans(g0.stage, g1.stage, g2.stage);
    forall x | 0 <= x < |q0.info| && x !in g0.stage ensures q2.info[x] == q0.info[x] {
      assert q1.info[x] == q0.info[x];
    }
  }

  // ---- what the driver writes ----

  datatype Write = SetDesc(d: nat, desc: Desc) | SetOp(d: nat, op: OpHeader) | SetInfo(d: nat, info: Info)

  predicate Sized(q: Queue) {
    |q.desc| == NUM && |q.ops| == NUM && |q.info| == NUM
  }

  function Written(q: Queue, w: Write): Queue
    requires Sized(q) && w.d < NUM
  {
    match w
    case SetDesc(d, x) => q.(desc := q.desc[d := x])
    case SetOp(d, x) => q.(ops := q.ops[d := x])
    case SetInfo(d, x) => q.(info := q.info[d := x])
  }

  /** Nothing depends on a descriptor that the driver holds, its header or its record. */
  lemma WriteOk(q: Queue, g: Book, busy: map<nat, bool>, w: Write)
    requires Steady(q, g, busy) && IsHeld(g.role, w.d)
    ensures Sized(q) && w.d < NUM && Steady(Written(q, w), g, busy)
  {
    assert RoleOk(q.desc, q.free, g.role, g.req, w.d);
    match w
    case SetDesc(d, x) => SetHeld(q.desc, q.free, q.ops, q.info, g.role, g.req, d, x);
    case SetOp(d, x) => SetRecord(q.desc, q.free, q.ops, q.info, g.role, g.req, d, x, q.info[d]);
      assert q.info[d := q.info[d]] == q.info;
    case SetInfo(d, x) => SetRecord(q.desc, q.free, q.ops, q.info, g.role, g.req, d, q.ops[d], x);
      assert q.ops[d := q.ops[d]] == q.ops;
      OtherInfo(g.req, g.stage, q.info, busy, g.holder, g.open, g.completed, g.n, d, x);
  }

  /** Since (q, g) the driver has written descriptors, headers and records, and the device has
      moved requests on. */
  ghost predicate Preparing(q: Queue, g: Book, q': Queue, g': Book) {
    && q' == q.(desc := q'.desc, ops := q'.ops, info := q'.info, takenIdx := q'.takenIdx, usedRing := q'.usedRing, usedIdx := q'.usedIdx,
                working := q'.working)
    && g' == g.(stage := g'.stage, posted := g'.posted, taken := g'.taken, done := g'.done) && g'.stage.Keys == g.stage.Keys
    && AllMoved(g.stage, g'.stage)
  }

  lemma PreparingMore(q0: Queue, g0: Book, q1: Queue, g1: Book, q2: Queue, g2: Book)
    requires Preparing(q0, g0, q1, g1) && DeviceOnly(q1.(desc := q2.desc, ops := q2.ops, info := q2.info), g1, q2, g2)
    ensures Preparing(q0, g0, q2, g2)
  {
    MovedTrans(g0.stage, g1.stage, g2.stage);
  }

  /** The request r with its head h is the only new one. */
  ghost predicate Posting(g: Book, g': Book, h: nat, r: Request) {
    && h !in g.req && g'.req == g.req[h := r] && g'.n == g.n + 1 && g'.completed == g.completed && g'.looked == g.looked
    && h in g'.stage && g'.stage[h] != Seen
    && AllMoved(g.stage, g'.stage)
  }

  lemma PostingMore(g0: Book, g1: Book, g2: Book, g3: Book, h: nat, r: Request)
    requires g1 == g0.(stage := g1.stage, posted := g1.posted, taken := g1.taken, done := g1.done)
    requires h !in g0.req && h !in g1.stage && g2.req == g1.req[h := r] && g2.stage == g1.stage[h := Posted] && g2.n == g1.n + 1
    requires g2.completed == g1.completed && g2.looked == g1.looked
    requires g3 == g2.(stage := g3.stage, posted := g3.posted, taken := g3.taken, done := g3.done)
    requires AllMoved(g0.stage, g1.stage) && AllMoved(g2.stage, g3.stage)
    ensures Posting(g0, g3, h, r)
  {
    forall x: nat ensures Moved(g1.stage, g2.stage, x) {
    }
    MovedTrans(g0.stage, g1.stage, g2.stage);
    MovedTrans(g0.stage, g2.stage, g3.stage);
    assert Moved(g2.stage, g3.stage, h);
  }

  lemma PostingAfter(g: Book, g0: Book, g1: Book, g2: Book, h: nat, r: Request)
    requires g0 == g.(role := g0.role) && g1 == g0.(stage := g1.stage, posted := g1.posted, taken := g1.taken, done := g1.done)
    requires AllMoved(g0.stage, g1.stage) && Posting(g1, g2, h, r)
    ensures Posting(g, g2, h, r)
  {
    MovedTrans(g.stage, g1.stage, g2.stage);
  }

  lemma UntouchedMore(busy: map<nat, bool>, x: nat, a: map<nat, Data>, b: map<nat, Data>)
    requires Untouched(busy, a, b)
    ensures Untouched(busy[x := true], a, b)
  {
  }

  lemma UntouchedTrans(busy: map<nat, bool>, a: map<nat, Data>, b: map<nat, Data>, c: map<nat, Data>)
    requires Untouched(busy, a, b) && Untouched(busy, b, c)
    ensures Untouched(busy, a, c)
  {
    forall x: nat | !(x in busy && busy[x]) ensures Lookup(c, x) == Lookup(a, x) {
      assert Lookup(b, x) == Lookup(a, x);
    }
  }

  /** Buffers that are not marked busy keep their data. */
  ghost predicate Untouched(busy: map<nat, bool>, data: map<nat, Data>, data': map<nat, Data>) {
    forall b: nat {:trigger Lookup(data', b)} :: !(b in busy && busy[b]) ==> Lookup(data', b) == Lookup(data, b)
  }

  class Disk {
    var q: Queue
    /** `b->disk` and `b->data`; the blocks on the medium. */
    var busy: map<nat, bool>
    var data: map<nat, Data>
    var medium: map<nat, Data>
    ghost var g: Book

    ghost predicate Valid()
      reads this
    {
      Inv(q, g, busy)
    }

    /** The queue part of `virtio_disk_init`. */
    constructor ()
      ensures Valid() && Count(q.free) == NUM && g.completed == [] && g.n == 0
    {
      q := Queue(seq(NUM, i => ZeroDesc), seq(NUM, i => true), seq(NUM, i => OpHeader(0, 0)), seq(NUM, i => Info(0, 0)),
                 seq(NUM, i => 0), 0, 0, seq(NUM, i => 0), 0, 0, {});
      busy, data, medium := map[], map[], map[];
      g := Book(seq(NUM, i => Unused), map[], map[], [], 0, [], 0, map[], map[], [], 0);
      new;
      CountAll(q.free);
    }

    /** `alloc_desc`: the first free descriptor, or -1 if there is none. */
    method AllocDesc() returns (r: int)
      requires Table(q, g)
      modifies this`q, this`g
      ensures Table(q, g) && -1 <= r < NUM
      ensures r == -1 ==> q == old(q) && g == old(g) && Count(q.free) == 0
      ensures r != -1 ==> old(g).role[r].Unused? && old(q).free[r] && forall d :: 0 <= d < r ==> !old(q).free[d]
      ensures r != -1 ==> q == old(q).(free := old(q).free[r := false]) && g == old(g).(role := old(g).role[r := Held])
      ensures r != -1 ==> Count(q.free) == Count(old(q).free) - 1
    {
      var i := 0;
      while i < NUM
        invariant 0 <= i <= NUM && q == old(q) && g == old(g)
        invariant forall d :: 0 <= d < i ==> !q.free[d]
      {
        if q.free[i] {
          assert RoleOk(q.desc, q.free, g.role, g.req, i);
          SetFree(q.desc, q.free, q.ops, q.info, g.role, g.req, i, false);
          CountSet(q.free, i, false);
          q := q.(free := q.free[i := false]);
          g := g.(role := g.role[i := Held]);
          return i;
        }
        i := i + 1;
      }
      CountNone(q.free);
      return -1;
    }

    /** `free_desc` of a descriptor in use; neither of its panics is reached. */
    method FreeDesc(i: nat)
      requires Table(q, g) && IsHeld(g.role, i)
      modifies this`q, this`g
      ensures Table(q, g) && i < NUM && Count(q.free) == Count(old(q).free) + 1
      ensures q == old(q).(desc := old(q).desc[i := ZeroDesc], free := old(q).free[i := true])
      ensures g == old(g).(role := old(g).role[i := Unused])
    {
      assert RoleOk(q.desc, q.free, g.role, g.req, i);
      SetHeld(q.desc, q.free, q.ops, q.info, g.role, g.req, i, ZeroDesc);
      SetFree(q.desc[i := ZeroDesc], q.free, q.ops, q.info, g.role, g.req, i, true);
      CountSet(q.free, i, true);
      q := q.(desc := q.desc[i := ZeroDesc]);
      q := q.(free := q.free[i := true]);
      g := g.(role := g.role[i := Unused]);
    }

    /** `alloc3_desc`: three descriptors if there are three, and otherwise nothing changes. */
    method Alloc3() returns (ok: bool, idx: seq<nat>)
      requires Table(q, g)
      modifies this`q, this`g
      ensures Table(q, g) && ok == (3 <= Count(old(q).free))
      ensures !ok ==> q == old(q) && g == old(g)
      ensures ok ==> |idx| == 3 && Took(old(q).free, old(g).role, q.free, g.role, idx)
      ensures ok ==> q == old(q).(free := q.free) && g == old(g).(role := g.role)
    {
      idx := [];
      var i := 0;
      ghost var q0, g0 := q, g;
      assert Took(q.free, g.role, q.free, g.role, []);
      while i < 3
        invariant 0 <= i <= 3 && |idx| == i && Table(q, g) && q == q0.(free := q.free) && g == g0.(role := g.role)
        invariant Took(q0.free, g0.role, q.free, g.role, idx) && Count(q.free) + i == Count(q0.free)
      {
        ghost var free1, role1 := q.free, g.role;
        var d := AllocDesc();
        if d < 0 {
          GiveBack(idx, q0, g0);
          return false, idx;
        }
        TookOne(q0.free, g0.role, free1, role1, idx, d);
        idx := idx + [d];
        i := i + 1;
      }
      ok := true;
    }

    /** The error path of `alloc3_desc`. */
    method GiveBack(idx: seq<nat>, ghost q0: Queue, ghost g0: Book)
      requires Table(q0, g0) && Table(q, g) && Took(q0.free, g0.role, q.free, g.role, idx)
      requires q == q0.(free := q.free) && g == g0.(role := g.role)
      modifies this`q, this`g
      ensures q == q0 && g == g0
    {
      var j := 0;
      assert idx[0..] == idx;
      while j < |idx|
        invariant 0 <= j <= |idx| && Table(q, g) && q == q0.(free := q.free) && g == g0.(role := g.role)
        invariant Took(q0.free, g0.role, q.free, g.role, idx[j..])
      {
        assert idx[j..][1..] == idx[j + 1..] && idx[j..][0] == idx[j];
        GaveOne(q0.free, g0.role, q.free, g.role, idx[j..]);
        assert RoleOk(q0.desc, q0.free, g0.role, g0.req, idx[j]);
        FreeDesc(idx[j]);
        j := j + 1;
      }
      assert idx[j..] == [];
      TookNone(q0.free, g0.role, q.free, g.role);
    }

    /** `virtio_disk_rw` up to its wait: the request is formatted and posted, or no three
        descriptors are free.  The caller has the buffer to itself.  The device works meanwhile. */
    method Submit(b: nat, write: bool, blockno: nat, acts: seq<seq<Act>>) returns (ok: bool, h: nat)
      requires Valid() && b != 0 && b !in g.holder
      modifies this`q, this`busy, this`data, this`medium, this`g
      ensures Valid() && ok == (3 <= Count(old(q).free))
      ensures !ok ==> q == old(q) && g == old(g) && busy == old(busy) && data == old(data) && medium == old(medium)
      ensures ok ==> Posting(old(g), g, h, Request(b, write, blockno, old(g).n)) && busy == old(busy)[b := true]
      ensures Untouched(busy, old(data), data)
    {
      var sector := blockno * 2;
      var idx;
      ok, idx := Alloc3();
      h := 0;
      if !ok {
        return;
      }
      TookHeld(old(q).free, old(g).role, q.free, g.role, idx);
      h := idx[0];
      ghost var r := Request(b, write, blockno, g.n);
      ghost var g0 := g;
      Format(idx, b, write, sector, r, acts);
      ghost var g1, d1 := g, data;
      Post(idx, b, r, acts);
      PostingAfter(old(g), g0, g1, g, h, r);
      UntouchedTrans(busy, old(data), d1, data);
    }

    /** The three descriptors are filled in, the buffer is marked busy and recorded. */
    method Format(idx: seq<nat>, b: nat, write: bool, sector: nat, ghost r: Request, acts: seq<seq<Act>>)
      requires Steady(q, g, busy) && HeldAre(g.role, idx) && |idx| == 3 && NoDup(idx)
      requires r.b == b && r.write == write && sector == r.block * 2 && b !in g.holder
      modifies this`q, this`busy, this`data, this`medium, this`g
      ensures Steady(q, g, busy) && Spelled(q.desc, q.ops, q.info, idx[0], idx[1], idx[2], r)
      ensures Preparing(old(q), old(g), q, g) && busy == old(busy)[b := true] && Untouched(busy, old(data), data)
    {
      var h, m, t := idx[0], idx[1], idx[2];
      ghost var q0, g0, d0 := q, g, data;
      assert IsHeld(g.role, h) && IsHeld(g.role, m) && IsHeld(g.role, t);
      assert DiffAt(idx, 0, 1) && DiffAt(idx, 0, 2) && DiffAt(idx, 1, 2);
      FormatHead(h, m, OpHeader(if write then 1 else 0, sector), acts);
      FormatData(h, m, t, DataOf(b), if write then 0 else F_WRITE, acts, q0, g0, d0);
      FormatStatus(h, t, acts, q0, g0, d0);
      OtherBuffer(g.req, g.stage, q.info, busy, g.holder, g.open, g.completed, g.n, b);
      UntouchedMore(busy, b, d0, data);
      busy := busy[b := true];
      Put(SetInfo(h, Info(b, q.info[h].status)), At(acts, 16), q0, g0, d0, h);
    }

    method FormatHead(h: nat, m: nat, op: OpHeader, acts: seq<seq<Act>>)
      requires Steady(q, g, busy) && IsHeld(g.role, h)
      modifies this`q, this`data, this`medium, this`g
      ensures Steady(q, g, busy) && Preparing(old(q), old(g), q, g) && Untouched(busy, old(data), data)
      ensures Sized(q) && h < NUM && q.ops[h] == op && q.desc[h] == Desc(Op(h), 16, F_NEXT, m)
    {
      ghost var q0, g0, d0 := q, g, data;
      assert RoleOk(q.desc, q.free, g.role, g.req, h);
      Put(SetOp(h, q.ops[h].(kind := op.kind)), At(acts, 0), q0, g0, d0, h);
      Put(SetOp(h, q.ops[h].(sector := op.sector)), At(acts, 1), q0, g0, d0, h);
      PutFields(h, Op(h), 16, F_NEXT, acts, 2, q0, g0, d0, h);
      Put(SetDesc(h, q.desc[h].(next := m)), At(acts, 5), q0, g0, d0, h);
    }

    method FormatData(h: nat, m: nat, t: nat, a: Addr, flags: nat, acts: seq<seq<Act>>,
                      ghost q0: Queue, ghost g0: Book, ghost d0: map<nat, Data>)
      requires Steady(q, g, busy) && Preparing(q0, g0, q, g) && Untouched(busy, d0, data) && IsHeld(g.role, h) && IsHeld(g.role, m)
      modifies this`q, this`data, this`medium, this`g
      ensures Steady(q, g, busy) && Preparing(q0, g0, q, g) && Untouched(busy, d0, data)
      ensures Sized(q) && Sized(old(q)) && m < NUM && q.ops == old(q).ops && q.desc == old(q).desc[m := Desc(a, 1024, flags + F_NEXT, t)]
    {
      PutFields(m, a, 1024, flags, acts, 6, q0, g0, d0, h);
      Put(SetDesc(m, q.desc[m].(flags := q.desc[m].flags + F_NEXT)), At(acts, 9), q0, g0, d0, h);
      Put(SetDesc(m, q.desc[m].(next := t)), At(acts, 10), q0, g0, d0, h);
    }

    method FormatStatus(h: nat, t: nat, acts: seq<seq<Act>>, ghost q0: Queue, ghost g0: Book, ghost d0: map<nat, Data>)
      requires Steady(q, g, busy) && Preparing(q0, g0, q, g) && Untouched(busy, d0, data) && IsHeld(g.role, h) && IsHeld(g.role, t)
      modifies this`q, this`data, this`medium, this`g
      ensures Steady(q, g, busy) && Preparing(q0, g0, q, g) && Untouched(busy, d0, data)
      ensures Sized(q) && Sized(old(q)) && h < NUM && t < NUM && q.info[h].status == 0xff
      ensures q.ops == old(q).ops && q.desc == old(q).desc[t := Desc(Status(h), 1, F_WRITE, 0)]
    {
      assert RoleOk(q.desc, q.free, g.role, g.req, h);
      Put(SetInfo(h, q.info[h].(status := 0xff)), At(acts, 11), q0, g0, d0, h);
      PutFields(t, Status(h), 1, F_WRITE, acts, 12, q0, g0, d0, h);
      Put(SetDesc(t, q.desc[t].(next := 0)), At(acts, 15), q0, g0, d0, h);
    }

    /** Address, length and flags of a descriptor, in three writes. */
    method PutFields(d: nat, a: Addr, len: nat, flags: nat, acts: seq<seq<Act>>, k: nat,
                     ghost q0: Queue, ghost g0: Book, ghost d0: map<nat, Data>, ghost h: nat)
      requires Steady(q, g, busy) && IsHeld(g.role, d) && Preparing(q0, g0, q, g) && Untouched(busy, d0, data) && IsHeld(g.role, h)
      modifies this`q, this`data, this`medium, this`g
      ensures Steady(q, g, busy) && Preparing(q0, g0, q, g) && Untouched(busy, d0, data)
      ensures Sized(q) && Sized(old(q)) && d < NUM && h < NUM && q.ops == old(q).ops && q.info[h] == old(q).info[h]
      ensures q.desc == old(q).desc[d := Desc(a, len, flags, old(q).desc[d].next)]
    {
      assert RoleOk(q.desc, q.free, g.role, g.req, d);
      Put(SetDesc(d, q.desc[d].(addr := a)), At(acts, k), q0, g0, d0, h);
      Put(SetDesc(d, q.desc[d].(len := len)), At(acts, k + 1), q0, g0, d0, h);
      Put(SetDesc(d, q.desc[d].(flags := flags)), At(acts, k + 2), q0, g0, d0, h);
    }

    /** One write of the driver, after which the device acts. */
    method Put(w: Write, acts: seq<Act>, ghost q0: Queue, ghost g0: Book, ghost d0: map<nat, Data>, ghost h: nat)
      requires Steady(q, g, busy) && IsHeld(g.role, w.d) && Preparing(q0, g0, q, g) && Untouched(busy, d0, data) && IsHeld(g.role, h)
      modifies this`q, this`data, this`medium, this`g
      ensures Steady(q, g, busy) && Preparing(q0, g0, q, g) && Untouched(busy, d0, data)
      ensures w.d < NUM && h < NUM && Sized(q) && Sized(old(q))
      ensures q.desc == Written(old(q), w).desc && q.ops == Written(old(q), w).ops && q.info[h] == Written(old(q), w).info[h]
    {
      ghost var q1, g1, d1 := q, g, data;
      WriteOk(q, g, busy, w);
      assert RoleOk(q.desc, q.free, g.role, g.req, h);
      q := Written(q, w);
      Device(acts);
      PreparingMore(q0, g0, q1, g1, q, g);
      UntouchedTrans(busy, d0, d1, data);
    }

    /** The head goes into the available ring, and then the index moves. */
    method Post(idx: seq<nat>, b: nat, ghost r: Request, acts: seq<seq<Act>>)
      requires Steady(q, g, busy) && HeldAre(g.role, idx) && |idx| == 3 && r.no == g.n && r.b == b != 0 && b !in g.holder
      requires Spelled(q.desc, q.ops, q.info, idx[0], idx[1], idx[2], r) && b in busy && busy[b]
      modifies this`q, this`data, this`medium, this`g
      ensures Valid() && Posting(old(g), g, idx[0], r) && Untouched(busy, old(data), data)
    {
      var h := idx[0];
      ghost var g0, d0 := g, data;
      assert IsHeld(g.role, h);
      assert RoleOk(q.desc, q.free, g.role, g.req, h);
      Offer(h);
      ghost var x := q.info[h];
      Device(At(acts, 17));
      assert q.info[h] == x;
      ghost var g1, d1 := g, data;
      Publish(h, idx, b, r);
      ghost var g2 := g;
      Device(At(acts, 18));
      PostingMore(g0, g1, g2, g, h, r);
      UntouchedTrans(busy, d0, d1, data);
    }

    /** The head goes into the slot of the available ring that comes next. */
    method Offer(h: nat)
      requires Steady(q, g, busy) && IsHeld(g.role, h)
      modifies this`q
      ensures Steady(q, g, busy) && |q.availRing| == NUM && q == old(q).(availRing := q.availRing) && q.availRing[q.availIdx % NUM] == h
    {
      assert RoleOk(q.desc, q.free, g.role, g.req, h);
      HeadsSmall(q.desc, q.free, q.ops, q.info, g.role, g.req, g.stage);
      PushOk(q.availRing, g.taken, g.posted, q.availIdx, g.stage, Posted, h);
      RingPrefix(q.availRing[q.availIdx % NUM := h], g.taken, g.posted, h);
      q := q.(availRing := q.availRing[q.availIdx % NUM := h]);
    }

    /** `disk.avail->idx += 1`: from now on the chain is the device's. */
    method Publish(h: nat, ghost idx: seq<nat>, b: nat, ghost r: Request)
      requires Steady(q, g, busy) && HeldAre(g.role, idx) && |idx| == 3 && h == idx[0] && r.no == g.n && r.b == b != 0
      requires Spelled(q.desc, q.ops, q.info, h, idx[1], idx[2], r) && b !in g.holder && b in busy && busy[b]
      requires |q.availRing| == NUM && q.availRing[q.availIdx % NUM] == h
      modifies this`q, this`g
      ensures Valid() && h !in old(g).req && h !in old(g).stage && g.completed == old(g).completed && g.looked == old(g).looked
      ensures g.req == old(g).req[h := r] && g.stage == old(g).stage[h := Posted] && g.n == old(g).n + 1
    {
      ghost var m, t, role0 := idx[1], idx[2], g.role;
      assert IsHeld(g.role, h) && IsHeld(g.role, m) && IsHeld(g.role, t);
      MakeChain(q.desc, q.free, q.ops, q.info, g.role, g.req, h, m, t, r);
      AddRequest(g.req, g.stage, q.info, busy, g.holder, g.open, g.completed, g.n, h, r);
      assert q.info[h := Info(b, 0xff)] == q.info && busy[b := true] == busy && q.availRing[q.availIdx % NUM := h] == q.availRing;
      HeadsSmall(q.desc, q.free, q.ops, q.info, g.role, g.req, g.stage);
      PushOk(q.availRing, g.taken, g.posted, q.availIdx, g.stage, Posted, h);
      QueueKeep(g.stage, g.done, Done, h, g.stage[h := Posted]);
      WorkMove(g.stage, q.working, h, g.stage[h := Posted], q.working);
      q := q.(availIdx := (q.availIdx + 1) % IDX);
      g := g.(role := g.role[h := Head][m := Mid(h)][t := Tail(h)], req := g.req[h := r], stage := g.stage[h := Posted],
              posted := g.posted + [h], holder := g.holder[b := h], open := g.open[g.n := h], n := g.n + 1);
      forall d: nat ensures IsHeld(g.role, d) <==> d in [] {
        assert IsHeld(role0, d) <==> d in idx;
      }
    }

    /** The device acts, as far as there is something to do for it. */
    method Device(acts: seq<Act>)
      requires Steady(q, g, busy)
      modifies this`q, this`data, this`medium, this`g
      ensures Steady(q, g, busy) && DeviceOnly(old(q), old(g), q, g) && Untouched(busy, old(data), data)
    {
      var i := 0;
      while i < |acts|
        invariant Steady(q, g, busy) && DeviceOnly(old(q), old(g), q, g) && Untouched(busy, old(data), data)
      {
        ghost var q1, g1 := q, g;
        match acts[i] {
          case TakeNext =>
            WrapEqual(g.taken, |g.posted|);
            if q.takenIdx != q.availIdx {
              var h := DeviceTake();
              DeviceOnlyTrans(old(q), old(g), q1, g1, q, g);
            }
          case Complete(h) =>
            assert WorkAt(g.stage, q.working, h);
            if h in q.working {
              DeviceComplete(h);
              DeviceOnlyTrans(old(q), old(g), q1, g1, q, g);
            }
        }
        i := i + 1;
      }
    }

    /** The device takes the next chain from the available ring. */
    method DeviceTake() returns (h: nat)
      requires Steady(q, g, busy) && g.posted != []
      modifies this`q, this`g
      ensures Steady(q, g, busy) && h == old(g).posted[0] && DeviceOnly(old(q), old(g), q, g)
      ensures g == old(g).(stage := old(g).stage[h := Working], posted := old(g).posted[1..], taken := old(g).taken + 1)
    {
      PopOk(q.availRing, g.taken, g.posted, q.takenIdx, g.stage, Posted, Working);
      h := q.availRing[q.takenIdx % NUM];
      assert ChainOk(q.desc, q.ops, q.info, g.role, g.req, h);
      MoveRequest(g.req, g.stage, q.info, busy, g.holder, g.open, g.completed, g.n, h, Working, q.info);
      QueueKeep(g.stage, g.done, Done, h, g.stage[h := Working]);
      WorkMove(g.stage, q.working, h, g.stage[h := Working], q.working + {h});
      q := q.(takenIdx := (q.takenIdx + 1) % IDX, working := q.working + {h});
      g := g.(stage := g.stage[h := Working], posted := g.posted[1..], taken := g.taken + 1);
    }

    /** The device carries out the request that the descriptors spell, and reports it.  Exactly
        one block moves between the medium and the buffer of that request. */
    method DeviceComplete(h: nat)
      requires Steady(q, g, busy) && h in g.req && g.stage[h] == Working
      modifies this`q, this`data, this`medium, this`g
      ensures Steady(q, g, busy) && g == old(g).(stage := old(g).stage[h := Done], done := old(g).done + [h])
      ensures g.req[h].write ==> data == old(data) && medium == old(medium)[g.req[h].block := Lookup(old(data), g.req[h].b)]
      ensures !g.req[h].write ==> medium == old(medium) && data == old(data)[g.req[h].b := Lookup(old(medium), g.req[h].block)]
      ensures DeviceOnly(old(q), old(g), q, g) && Untouched(busy, old(data), data)
    {
      assert ChainOk(q.desc, q.ops, q.info, g.role, g.req, h) && RequestOk(g.req, g.stage, q.info, busy, g.holder, g.open, h);
      var d1 := q.desc[q.desc[h].next];
      var d2 := q.desc[d1.next];
      var op := q.ops[q.desc[h].addr.i];
      if op.kind == 1 {
        medium := medium[op.sector / 2 := Lookup(data, d1.addr.b)];
      } else {
        data := data[d1.addr.b := Lookup(medium, op.sector / 2)];
      }
      Report(d2.addr.i);
    }

    /** The status byte and the used ring. */
    method Report(h: nat)
      requires Steady(q, g, busy) && h in g.req && g.stage[h] == Working
      modifies this`q, this`g
      ensures Steady(q, g, busy) && g == old(g).(stage := old(g).stage[h := Done], done := old(g).done + [h])
      ensures DeviceOnly(old(q), old(g), q, g)
    {
      assert ChainOk(q.desc, q.ops, q.info, g.role, g.req, h);
      SetStatus(q.desc, q.free, q.ops, q.info, g.role, g.req, h);
      MoveRequest(g.req, g.stage, q.info, busy, g.holder, g.open, g.completed, g.n, h, Done, q.info[h := Info(q.info[h].b, 0)]);
      HeadsSmall(q.desc, q.free, q.ops, q.info, g.role, g.req, g.stage);
      PushOk(q.usedRing, g.looked, g.done, q.usedIdx, g.stage, Done, h);
      QueueKeep(g.stage, g.posted, Posted, h, g.stage[h := Done]);
      q := q.(info := q.info[h := Info(q.info[h].b, 0)]);
      q := q.(usedRing := q.usedRing[q.usedIdx % NUM := h]);
      WorkMove(g.stage, q.working, h, g.stage[h := Done], q.working - {h});
      q := q.(usedIdx := (q.usedIdx + 1) % IDX, working := q.working - {h});
      g := g.(stage := g.stage[h := Done], done := g.done + [h]);
    }

    /** One turn of the loop in `virtio_disk_intr`: the request it names was posted, was not
        completed before, has status 0, and its buffer was marked busy until now. */
    method IntrTurn()
      requires Valid() && g.done != []
      modifies this`q, this`busy, this`g
      ensures Valid() && q == old(q).(lookedIdx := q.lookedIdx) && g.looked == old(g).looked + 1
      ensures var h := old(g).done[0];
        && h in g.req && g.req[h].no !in old(g).completed && g.req[h].b in old(busy) && old(busy)[g.req[h].b]
        && g.req[h].no in old(g).open
        && busy == old(busy)[g.req[h].b := false]
        && g == old(g).(stage := old(g).stage[h := Seen], done := old(g).done[1..], looked := old(g).looked + 1,
                        open := old(g).open - {g.req[h].no}, completed := old(g).completed + [g.req[h].no])
    {
      PopOk(q.usedRing, g.looked, g.done, q.lookedIdx, g.stage, Done, Seen);
      var id := q.usedRing[q.lookedIdx % NUM];
      SeeRequest(g.req, g.stage, q.info, busy, g.holder, g.open, g.completed, g.n, id);
      QueueKeep(g.stage, g.posted, Posted, id, g.stage[id := Seen]);
      WorkMove(g.stage, q.working, id, g.stage[id := Seen], q.working);
      assert RequestOk(g.req, g.stage, q.info, busy, g.holder, g.open, id) && ChainOk(q.desc, q.ops, q.info, g.role, g.req, id);
      assert q.info[id].status == 0; // so the panic "virtio_disk_intr status" is not reached
      busy := busy[q.info[id].b := false];
      q := q.(lookedIdx := (q.lookedIdx + 1) % IDX);
      g := g.(stage := g.stage[id := Seen], done := g.done[1..], looked := g.looked + 1,
              open := g.open - {g.req[id].no}, completed := g.completed + [g.req[id].no]);
    }

    /** `virtio_disk_intr`: every entry of the used ring is dealt with, in order, also those that
        the device adds meanwhile. */
    method Intr(acts: seq<seq<Act>>) returns (ghost handled: seq<nat>)
      requires Valid()
      modifies this`q, this`busy, this`data, this`medium, this`g
      ensures Valid() && g.done == [] && q.lookedIdx == q.usedIdx && old(g).done <= handled
      ensures g.req == old(g).req && g.completed == old(g).completed + Numbers(g.req, handled)
    {
      handled := [];
      ghost var d0, c0, req := g.done, g.completed, g.req;
      var i: nat := 1;
      Device(At(acts, 0));
      WrapEqual(g.looked, |g.done|);
      while q.lookedIdx != q.usedIdx
        invariant Valid() && g.req == req && d0 <= handled + g.done && g.completed == c0 + Numbers(req, handled)
        invariant q.lookedIdx != q.usedIdx <==> g.done != []
        decreases g.open.Keys
      {
        ghost var done := g.done;
        IntrStep(At(acts, i));
        assert handled + done == handled + [done[0]] + done[1..];
        handled := handled + [done[0]];
        i := i + 1;
      }
    }

    method IntrStep(acts: seq<Act>)
      requires Valid() && g.done != []
      modifies this`q, this`busy, this`data, this`medium, this`g
      ensures Valid() && g.req == old(g).req && g.open.Keys < old(g).open.Keys && old(g).done[1..] <= g.done
      ensures var h := old(g).done[0]; h in g.req && g.completed == old(g).completed + [g.req[h].no]
      ensures q.lookedIdx != q.usedIdx <==> g.done != []
    {
      IntrTurn();
      Device(acts);
      WrapEqual(g.looked, |g.done|);
    }

    /** The end of `virtio_disk_rw`, once `b->disk` is 0: the chain is freed. */
    method Finish(h: nat)
      requires Valid() && h in g.req && h < |q.info| && q.info[h].b in busy && !busy[q.info[h].b]
      modifies this`q, this`g
      ensures Valid() && Count(q.free) == Count(old(q).free) + 3
      ensures g.req == old(g).req - {h} && g.stage == old(g).stage - {h} && g.completed == old(g).completed && g.n == old(g).n
    {
      assert ChainOk(q.desc, q.ops, q.info, g.role, g.req, h) && RequestOk(g.req, g.stage, q.info, busy, g.holder, g.open, h);
      ghost var m := q.desc[h].next;
      ghost var t := q.desc[m].next;
      Release(h, m, t);
      FreeChain(h, m, t);
    }

    /** `disk.info[idx[0]].b = 0`, after which nothing refers to the chain. */
    method Release(h: nat, ghost m: nat, ghost t: nat)
      requires Valid() && h in g.req && h in g.stage && g.stage[h] == Seen
      requires ChainOk(q.desc, q.ops, q.info, g.role, g.req, h) && m == q.desc[h].next && t == q.desc[m].next
      modifies this`q, this`g
      ensures Steady(q, g, busy) && HeldAre(g.role, [h, m, t])
      ensures q == old(q).(info := q.info)
      ensures g == old(g).(role := g.role, req := old(g).req - {h}, stage := old(g).stage - {h}, holder := g.holder)
    {
      BreakChain(q.desc, q.free, q.ops, q.info, g.role, g.req, h, Info(0, q.info[h].status));
      DropRequest(g.req, g.stage, q.info, busy, g.holder, g.open, g.completed, g.n, h, Info(0, q.info[h].status));
      QueueKeep(g.stage, g.posted, Posted, h, g.stage - {h});
      QueueKeep(g.stage, g.done, Done, h, g.stage - {h});
      WorkMove(g.stage, q.working, h, g.stage - {h}, q.working);
      ghost var role0 := g.role;
      q := q.(info := q.info[h := Info(0, q.info[h].status)]);
      g := g.(role := g.role[h := Held][m := Held][t := Held], holder := g.holder - {g.req[h].b}, req := g.req - {h}, stage := g.stage - {h});
      forall d: nat ensures IsHeld(g.role, d) <==> d in [h, m, t] {
        assert IsHeld(role0, d) <==> d in [];
      }
    }

    /** `free_chain`: the descriptors of the chain, each once. */
    method FreeChain(h: nat, ghost m: nat, ghost t: nat)
      requires Table(q, g) && HeldAre(g.role, [h, m, t]) && Linked(q.desc, h, m, t)
      modifies this`q, this`g
      ensures Table(q, g) && HeldAre(g.role, []) && Count(q.free) == Count(old(q).free) + 3
      ensures q == old(q).(desc := q.desc, free := q.free) && g == old(g).(role := g.role)
    {
      var i := h;
      ghost var rest := [h, m, t];
      while true
        invariant Table(q, g) && HeldAre(g.role, rest)
        invariant q == old(q).(desc := q.desc, free := q.free) && g == old(g).(role := g.role)
        invariant 1 <= |rest| <= 3 && i == rest[0] && Count(q.free) + |rest| == Count(old(q).free) + 3
        invariant if |rest| == 3 then rest == [h, m, t] && Linked(q.desc, h, m, t)
                  else if |rest| == 2 then rest == [m, t] && m != t && Link(q.desc, m, true, t) && Link(q.desc, t, false, 0)
                  else rest == [t] && Link(q.desc, t, false, 0)
        decreases |rest|
      {
        assert IsHeld(g.role, i);
        var flags, nxt := q.desc[i].flags, q.desc[i].next;
        ghost var role0 := g.role;
        FreeDesc(i);
        HeldRest(role0, g.role, rest, i);
        rest := rest[1..];
        if flags % 2 == 1 {
          i := nxt;
        } else {
          assert rest == [];
          break;
        }
      }
    }
  }

  lemma HeldRest(role: seq<Role>, role': seq<Role>, rest: seq<nat>, i: nat)
    requires HeldAre(role, rest) && rest != [] && i == rest[0] && i !in rest[1..] && i < |role| && role' == role[i := Unused]
    ensures HeldAre(role', rest[1..])
  {
    forall d: nat ensures IsHeld(role', d) <==> d in rest[1..] {
      assert IsHeld(role, d) <==> d in rest;
      assert rest == [i] + rest[1..];
    }
  }

  predicate Link(desc: seq<Desc>, d: nat, more: bool, next: nat) {
    d < |desc| && (desc[d].flags % 2 == 1) == more && (more ==> desc[d].next == next)
  }

  predicate Linked(desc: seq<Desc>, h: nat, m: nat, t: nat) {
    h != m && h != t && m != t && Link(desc, h, true, m) && Link(desc, m, true, t) && Link(desc, t, false, 0)
  }

  /** The numbers of the requests at these heads. */
  function Numbers(req: map<nat, Request>, q: seq<nat>): seq<nat> {
    if q == [] then [] else Numbers(req, q[..|q| - 1]) + [if q[|q| - 1] in req then req[q[|q| - 1]].no else 0]
  }

  /** Every queue of requests holds descriptor numbers. */
  lemma HeadsSmall(desc: seq<Desc>, free: seq<bool>, ops: seq<OpHeader>, info: seq<Info>, role: seq<Role>, req: map<nat, Request>,
                   stage: map<nat, Stage>)
    requires TableOk(desc, free, ops, info, role, req) && stage.Keys == req.Keys
    ensures forall x :: x in stage ==> x < NUM
  {
    forall x | x in stage ensures x < NUM {
      assert ChainOk(desc, ops, info, role, req, x);
    }
  }

  /** Both rings show the queues they should, and the wrapping indices agree. */
  ghost predicate RingsOk(availRing: seq<nat>, takenIdx: nat, availIdx: nat, taken: nat, posted: seq<nat>,
                          usedRing: seq<nat>, lookedIdx: nat, usedIdx: nat, looked: nat, done: seq<nat>, stage: map<nat, Stage>)
  {
    && RingOk(availRing, taken, posted) && QueueOk(stage, posted, Posted) && takenIdx == taken % IDX && availIdx == (taken + |posted|) % IDX
    && RingOk(usedRing, looked, done) && QueueOk(stage, done, Done) && lookedIdx == looked % IDX && usedIdx == (looked + |done|) % IDX
  }

  lemma PushOk(ring: seq<nat>, lo: nat, q: seq<nat>, idx: nat, stage: map<nat, Stage>, g: Stage, h: nat)
    requires RingOk(ring, lo, q) && QueueOk(stage, q, g) && idx == (lo + |q|) % IDX
    requires h < NUM && !(h in stage && stage[h] == g) && forall x :: x in stage ==> x < NUM
    ensures |q| < NUM && RingOk(ring[idx % NUM := h], lo, q + [h]) && QueueOk(stage[h := g], q + [h], g)
    ensures (idx + 1) % IDX == (lo + |q + [h]|) % IDX
  {
    forall x | x in q ensures x < NUM {
      assert QueueAt(stage, q, g, x);
    }
    assert QueueAt(stage, q, g, h);
    Room(q, h);
    WrapEqual(lo + |q|, 0);
    RingPush(ring, lo, q, lo + |q|, h);
    QueuePush(stage, q, g, h);
  }

  lemma PopOk(ring: seq<nat>, lo: nat, q: seq<nat>, at: nat, stage: map<nat, Stage>, g: Stage, to: Stage)
    requires RingOk(ring, lo, q) && QueueOk(stage, q, g) && at == lo % IDX && q != [] && to != g
    ensures ring[at % NUM] == q[0] && q[0] in stage && stage[q[0]] == g
    ensures RingOk(ring, lo + 1, q[1..]) && QueueOk(stage[q[0] := to], q[1..], g)
    ensures (at + 1) % IDX == (lo + 1) % IDX && lo + 1 + |q[1..]| == lo + |q|
  {
    WrapEqual(lo, 0);
    RingPop(ring, lo, q);
    QueuePop(stage, q, g, to);
  }

  // ---- what the invariant says ----

  /** The descriptors of the chain at h. */
  function ChainAt(desc: seq<Desc>, h: nat): seq<nat> {
    if h < |desc| && desc[h].next < |desc| then [h, desc[h].next, desc[desc[h].next].next] else []
  }

  /** Descriptor d is free, or in the chain of exactly one request. */
  lemma Partition(q: Queue, g: Book, busy: map<nat, bool>, d: nat)
    requires Inv(q, g, busy) && d < NUM
    ensures q.free[d] <==> forall h {:trigger ChainAt(q.desc, h)} :: h in g.req ==> d !in ChainAt(q.desc, h)
    ensures forall h, k {:trigger ChainAt(q.desc, h), ChainAt(q.desc, k)} ::
      h in g.req && k in g.req && d in ChainAt(q.desc, h) && d in ChainAt(q.desc, k) ==> h == k
  {
    var role := g.role;
    assert RoleOk(q.desc, q.free, role, g.req, d) && (IsHeld(role, d) <==> d in []);
    forall h | h in g.req && d in ChainAt(q.desc, h) ensures !q.free[d] && h == (if role[d].Head? then d else if role[d].Mid? || role[d].Tail? then role[d].h else 0) {
      assert ChainOk(q.desc, q.ops, q.info, role, g.req, h);
    }
    if !q.free[d] {
      var h := if role[d].Head? then d else role[d].h;
      assert RoleOk(q.desc, q.free, role, g.req, h) && ChainOk(q.desc, q.ops, q.info, role, g.req, h);
      assert d in ChainAt(q.desc, h);
    }
  }

  /** A request that was made is still open, with its buffer marked busy, or it has been
      completed, once. */
  lemma CompletedOnce(q: Queue, g: Book, busy: map<nat, bool>, r: nat)
    requires Inv(q, g, busy) && r < g.n
    ensures r in g.completed <==> !exists h {:trigger g.req[h]} :: h in g.req && g.req[h].no == r && g.req[h].b in busy && busy[g.req[h].b]
    ensures forall i, j :: 0 <= i < j < |g.completed| ==> g.completed[i] != g.completed[j]
  {
    assert NumberOk(g.req, g.stage, g.open, g.completed, g.n, r);
    forall h | h in g.req && g.req[h].no == r && g.req[h].b in busy && busy[g.req[h].b] ensures r !in g.completed {
      assert RequestOk(g.req, g.stage, q.info, busy, g.holder, g.open, h);
    }
    if r !in g.completed {
      var h := g.open[r];
      assert RequestOk(g.req, g.stage, q.info, busy, g.holder, g.open, h);
      assert g.req[h].no == r && busy[g.req[h].b];
    }
    forall i, j | 0 <= i < j < |g.completed| ensures g.completed[i] != g.completed[j] {
      assert DiffAt(g.completed, i, j);
    }
  }

  /** Every entry of the used ring that the driver has not looked at names the head of a
      request whose buffer is marked busy, also when the 16-bit indices have wrapped. */
  lemma UnseenEntries(q: Queue, g: Book, busy: map<nat, bool>, i: nat)
    requires Inv(q, g, busy) && i < |g.done|
    ensures |q.usedRing| == NUM && (g.looked + |g.done|) % IDX == q.usedIdx
    ensures var h := q.usedRing[(q.lookedIdx + i) % NUM];
      && h in g.req && h < |q.info| && q.info[h].b == g.req[h].b && q.info[h].status == 0
      && q.info[h].b in busy && busy[q.info[h].b] && g.req[h].no !in g.completed
  {
    var h := g.done[i];
    assert SlotOk(q.usedRing, g.looked, g.done, i);
    WrapAdd(g.looked, i);
    assert QueueAt(g.stage, g.done, Done, h);
    assert RequestOk(g.req, g.stage, q.info, busy, g.holder, g.open, h) && ChainOk(q.desc, q.ops, q.info, g.role, g.req, h);
    assert NumberOk(g.req, g.stage, g.open, g.completed, g.n, g.req[h].no);
  }

  lemma WrapAdd(s: nat, i: nat)
    ensures (s % IDX + i) % NUM == (s + i) % NUM
  {
    assert s == IDX * (s / IDX) + s % IDX && IDX == NUM * 8192;
  }
}
