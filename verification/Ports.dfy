/**
 The port table of kernel/port1.c and kernel/kernel.h.  A base table points at
 sub-tables of 64 entries; the free entries are threaded into a list through
 their Owner words; a port descriptor is an index into the two levels together
 with the value the entry's cycle counter had when it was allocated.
 */
module Ports {
  import opened Lists
  import opened Words

  datatype PortType = TFree | TLocal | TSurrogate | TTrail | TPermanent

  /** A port table entry.  TxId and RxId are words: an Id or a remote port. */
  datatype PTE = PTE(Type: PortType, Link: Byte, Cycle: Byte, Age: Byte,
                     Owner: Word, TxId: Word, RxId: Word)

  /** A slot of the base table: NULL, MinInt, or a sub-table. */
  datatype Slot = Null | Unused | Sub(ptes: seq<PTE>)

  datatype Code = ErrNull | ErrBadPort

  datatype Table = Table(base: seq<Slot>, freeq: Word)

  const BLOCK := 64

  // ---- Descriptors ----

  function Index(p: Word): (i: nat)
    ensures i < 0x1_0000
  {
    p % 0x1_0000
  }

  function PortCycle(p: Word): (c: Byte) { p / 0x1_0000 % 0x100 }

  predicate NotSameCycle(p: Word, e: PTE) { PortCycle(p) != e.Cycle }

  /** What _NewPort and the scans of the table build: MinInt, cycle, index. */
  function Descriptor(i: nat, cycle: Byte): (p: Word)
    requires i < 0x1_0000
    ensures Index(p) == i && PortCycle(p) == cycle && p != 0
  {
    MIN_INT + cycle * 0x1_0000 + i
  }

  // ---- The two levels ----

  predicate HasEntry(t: Table, i: nat)
  {
    && i / 0x100 < |t.base|
    && t.base[i / 0x100].Sub?
    && i % 0x100 < |t.base[i / 0x100].ptes|
  }

  /** GetPTE. */
  function Entry(t: Table, i: nat): PTE
    requires HasEntry(t, i)
  {
    t.base[i / 0x100].ptes[i % 0x100]
  }

  /** Assignment to *GetPTE(i). */
  function Put(t: Table, i: nat, e: PTE): (t': Table)
    requires HasEntry(t, i)
    ensures t'.freeq == t.freeq && |t'.base| == |t.base|
    ensures forall j: nat :: HasEntry(t', j) <==> HasEntry(t, j)
    ensures forall j: nat :: HasEntry(t, j) ==> Entry(t', j) == if j == i then e else Entry(t, j)
  {
    var sub := t.base[i / 0x100].ptes;
    t.(base := t.base[i / 0x100 := Sub(sub[i % 0x100 := e])])
  }

  ghost predicate ShapeOk(t: Table)
  {
    && |t.base| > 0
    && t.base[|t.base| - 1].Null?
    && (forall b :: 0 <= b < |t.base| - 1 ==> !t.base[b].Null?)
    && (forall b :: 0 <= b < |t.base| && t.base[b].Sub? ==> b < 0x100 && |t.base[b].ptes| == BLOCK)
  }

  /**
   fl is the free list: it starts at PTFreeq, runs through the Owner words,
   ends at MinInt, repeats nothing and holds exactly the T_Free entries.
   */
  ghost predicate FreeList(t: Table, fl: seq<nat>)
  {
    && t.freeq == Link(fl, 0)
    && (forall k :: 0 <= k < |fl| ==> Linked(t, fl, k))
    && Distinct(fl)
    && (forall i: nat :: HasEntry(t, i) && Entry(t, i).Type.TFree? ==> i in fl)
  }

  ghost predicate Linked(t: Table, fl: seq<nat>, k: nat)
    requires k < |fl|
  {
    && HasEntry(t, fl[k])
    && Entry(t, fl[k]).Type.TFree?
    && Entry(t, fl[k]).Owner == Link(fl, k + 1)
  }

  /** The word that leads to element k of the list, MinInt past the end. */
  ghost function Link(fl: seq<nat>, k: nat): int
  {
    if k < |fl| then fl[k] else MIN_INT
  }

  ghost predicate Valid(t: Table)
  {
    ShapeOk(t) && exists fl :: FreeList(t, fl)
  }

  lemma EntriesAreShort(t: Table, i: nat)
    requires ShapeOk(t) && HasEntry(t, i)
    ensures i < 0x1_0000
  {
  }

  // ---- ExtendTable ----

  /** Where the search for a slot stops: the first MinInt, or the final NULL. */
  function FirstFree(base: seq<Slot>): (b: nat)
    requires |base| > 0
    ensures b < |base|
    ensures forall k :: 0 <= k < b ==> base[k].Sub?
    ensures !base[b].Sub? || b == |base| - 1
  {
    if !base[0].Sub? || |base| == 1 then 0 else 1 + FirstFree(base[1..])
  }

  /** The base table at twice its size, the old terminator's slot made usable. */
  function Doubled(base: seq<Slot>): (r: seq<Slot>)
    requires |base| > 0
    ensures |r| == 2 * |base|
  {
    seq(2 * |base|, k requires 0 <= k =>
      if k < |base| - 1 then base[k] else if k == 2 * |base| - 1 then Null else Unused)
  }

  function FreshEntries(b: nat, freeq: Word): (r: seq<PTE>)
    requires b < 0x100
    ensures |r| == BLOCK
  {
    seq(BLOCK, k requires 0 <= k < BLOCK => FreshEntry(b, k, freeq))
  }

  function FreshEntry(b: nat, k: nat, freeq: Word): PTE
    requires b < 0x100 && k < BLOCK
  {
    PTE(TFree, 0, 1, 0, if k == 0 then freeq else b * 0x100 + k - 1, 0, 0)
  }

  predicate Room(t: Table)
  {
    |t.base| > 0 && FirstFree(t.base) < 0x100
  }

  function Extended(t: Table): Table
    requires Room(t)
  {
    var b := FirstFree(t.base);
    var base := if t.base[b].Unused? then t.base else Doubled(t.base);
    Table(base[b := Sub(FreshEntries(b, t.freeq))], b * 0x100 + BLOCK - 1)
  }

  ghost predicate IsFresh(b: nat, i: nat) { i / 0x100 == b && i % 0x100 < BLOCK }

  /**
   Extending preserves every lookup and adds exactly 64 free entries, in one
   sub-table that did not exist before, on the front of the free list.
   */
  lemma ExtendKeepsEntries(t: Table)
    requires ShapeOk(t) && Room(t)
    ensures ShapeOk(Extended(t))
    ensures var b, t' := FirstFree(t.base), Extended(t);
            && (forall i: nat :: HasEntry(t', i) <==> HasEntry(t, i) || IsFresh(b, i))
            && (forall i: nat :: IsFresh(b, i) ==> !HasEntry(t, i))
            && (forall i: nat :: HasEntry(t, i) ==> Entry(t', i) == Entry(t, i))
            && (forall i: nat :: IsFresh(b, i) ==> Entry(t', i) == FreshEntry(b, i % 0x100, t.freeq))
  {
  }

  ghost function FreshList(b: nat): (fl: seq<nat>)
    ensures |fl| == BLOCK
    ensures forall k :: 0 <= k < BLOCK ==> IsFresh(b, fl[k]) && fl[k] % 0x100 == BLOCK - 1 - k
    ensures forall i: nat :: IsFresh(b, i) ==> i in fl
  {
    var fl := seq(BLOCK, k requires 0 <= k < BLOCK => b * 0x100 + (BLOCK - 1 - k));
    assert forall i: nat :: IsFresh(b, i) ==> fl[BLOCK - 1 - i % 0x100] == i;
    fl
  }

  lemma ExtendFreeList(t: Table, fl: seq<nat>)
    requires ShapeOk(t) && Room(t) && FreeList(t, fl)
    ensures FreeList(Extended(t), FreshList(FirstFree(t.base)) + fl)
  {
    var b, t' := FirstFree(t.base), Extended(t);
    var all := FreshList(b) + fl;
    forall k | 0 <= k < |all| ensures Linked(t', all, k) {
      ExtendLinked(t, fl, k);
    }
    ExtendDistinct(t, fl);
    ExtendComplete(t, fl);
  }

  lemma ExtendLinked(t: Table, fl: seq<nat>, k: nat)
    requires ShapeOk(t) && Room(t) && FreeList(t, fl) && k < BLOCK + |fl|
    ensures Linked(Extended(t), FreshList(FirstFree(t.base)) + fl, k)
  {
    ExtendKeepsEntries(t);
    var b := FirstFree(t.base);
    var all := FreshList(b) + fl;
    if k < BLOCK {
      FreshLink(b, fl, k, t.freeq);
      assert IsFresh(b, all[k]);
    } else {
      assert all[k] == fl[k - BLOCK] && Linked(t, fl, k - BLOCK);
    }
  }

  lemma FreshLink(b: nat, fl: seq<nat>, k: nat, freeq: Word)
    requires b < 0x100 && k < BLOCK && freeq == Link(fl, 0)
    ensures var all := FreshList(b) + fl; FreshEntry(b, all[k] % 0x100, freeq).Owner == Link(all, k + 1)
  {
  }

  lemma ExtendDistinct(t: Table, fl: seq<nat>)
    requires ShapeOk(t) && Room(t) && FreeList(t, fl)
    ensures Distinct(FreshList(FirstFree(t.base)) + fl)
  {
    var b := FirstFree(t.base);
    forall k | 0 <= k < |fl| ensures !IsFresh(b, fl[k]) {
      assert Linked(t, fl, k);
      FreshIsNew(t, fl[k]);
    }
    FreshDistinct(b, fl);
  }

  lemma FreshIsNew(t: Table, i: nat)
    requires ShapeOk(t) && Room(t) && HasEntry(t, i)
    ensures !IsFresh(FirstFree(t.base), i)
  {
  }

  lemma DistinctConcat(a: seq<nat>, b: seq<nat>)
    requires Distinct(b)
    requires forall j, k :: 0 <= j < k < |a| ==> a[j] != a[k]
    requires forall j, k :: 0 <= j < |a| && 0 <= k < |b| ==> a[j] != b[k]
    ensures Distinct(a + b)
  {
    DistinctPairs(b);
    DistinctPairs(a + b);
  }

  lemma FreshDistinct(b: nat, fl: seq<nat>)
    requires Distinct(fl) && forall k :: 0 <= k < |fl| ==> !IsFresh(b, fl[k])
    ensures Distinct(FreshList(b) + fl)
  {
    var news := FreshList(b);
    forall j, k | 0 <= j < k < BLOCK ensures news[j] != news[k] {
      assert news[j] % 0x100 != news[k] % 0x100;
    }
    forall j, k | 0 <= j < BLOCK && 0 <= k < |fl| ensures news[j] != fl[k] {
      assert IsFresh(b, news[j]);
    }
    DistinctConcat(news, fl);
  }

  lemma ExtendComplete(t: Table, fl: seq<nat>)
    requires ShapeOk(t) && Room(t) && FreeList(t, fl)
    ensures var t' := Extended(t);
            forall i: nat :: HasEntry(t', i) && Entry(t', i).Type.TFree? ==> i in FreshList(FirstFree(t.base)) + fl
  {
  }

  // ---- _NewPort and _FreePort ----

  function Allocated(e: PTE): PTE { PTE(TLocal, 0, e.Cycle, 1, 0, 0, 0) }

  /** `pte->Cycle++` on a byte. */
  function Next(c: Byte): Byte { if c == 0xff then 0 else c + 1 }

  function Freed(e: PTE, freeq: Word): PTE
  {
    e.(Type := TFree, Cycle := Next(e.Cycle), Owner := freeq, TxId := 0, RxId := 0)
  }

  /** There is a free entry, or room for another sub-table. */
  predicate CanAllocate(t: Table)
  {
    if t.freeq == MIN_INT then Room(t) else HasEntry(t, Index(t.freeq))
  }

  /** The table _NewPort takes its entry from. */
  function Stocked(t: Table): (t': Table)
    requires CanAllocate(t)
    ensures HasEntry(t', Index(t'.freeq)) && t'.freeq != MIN_INT
  {
    if t.freeq == MIN_INT then
      ExtendedStarts(t);
      Extended(t)
    else t
  }

  /** The list starts with the last of the new entries. */
  lemma ExtendedStarts(t: Table)
    requires Room(t)
    ensures HasEntry(Extended(t), Index(Extended(t).freeq)) && Extended(t).freeq < MIN_INT
  {
    var b := FirstFree(t.base);
    BlockIndex(b);
    assert Extended(t).base[b] == Sub(FreshEntries(b, t.freeq));
  }

  lemma BlockIndex(b: nat)
    requires b < 0x100
    ensures var i := Index(b * 0x100 + BLOCK - 1); i / 0x100 == b && i % 0x100 == BLOCK - 1
  {
  }

  /** The entry at the head of the free list is taken into use. */
  function PopPort(t: Table): (Table, Word)
    requires HasEntry(t, Index(t.freeq))
  {
    var i := Index(t.freeq);
    var e := Entry(t, i);
    (Put(t, i, Allocated(e)).(freeq := e.Owner), Descriptor(i, e.Cycle))
  }

  function NewPort(t: Table): (r: (Table, Word))
    requires CanAllocate(t)
  {
    PopPort(Stocked(t))
  }

  function FreePort(t: Table, port: Word): (r: (Table, Code))
    requires HasEntry(t, Index(port))
  {
    var i := Index(port);
    var e := Entry(t, i);
    if NotSameCycle(port, e) || e.Type.TFree? || e.Type.TPermanent? then (t, ErrBadPort)
    else (Put(t, i, Freed(e, t.freeq)).(freeq := i), ErrNull)
  }

  predicate IsLive(t: Table, port: Word)
  {
    HasEntry(t, Index(port)) && !NotSameCycle(port, Entry(t, Index(port))) && !Entry(t, Index(port)).Type.TFree?
  }

  /** An entry as ExtendTable makes it. */
  predicate IsBlank(e: PTE) { e.Type.TFree? && e.Cycle == 1 && e.TxId == 0 }

  lemma StockedValid(t: Table)
    requires Valid(t) && CanAllocate(t)
    ensures Valid(Stocked(t))
    ensures forall i: nat :: HasEntry(t, i) ==> HasEntry(Stocked(t), i) && Entry(Stocked(t), i) == Entry(t, i)
    ensures forall i: nat :: HasEntry(Stocked(t), i) && !HasEntry(t, i) ==> IsBlank(Entry(Stocked(t), i))
    ensures t.freeq != MIN_INT ==> Stocked(t) == t
  {
    if t.freeq == MIN_INT {
      var fl :| FreeList(t, fl);
      ExtendKeepsEntries(t);
      ExtendFreeList(t, fl);
    }
  }

  lemma PutShape(t: Table, i: nat, e: PTE, freeq: Word)
    requires ShapeOk(t) && HasEntry(t, i)
    ensures ShapeOk(Put(t, i, e).(freeq := freeq))
  {
  }

  lemma PopFreeList(t: Table, fl: seq<nat>)
    requires ShapeOk(t) && FreeList(t, fl) && |fl| > 0
    ensures HasEntry(t, fl[0]) && Index(t.freeq) == fl[0] && fl[0] < 0x1_0000 && Entry(t, fl[0]).Type.TFree?
    ensures var e := Entry(t, fl[0]);
            FreeList(Put(t, fl[0], Allocated(e)).(freeq := e.Owner), fl[1..])
  {
    assert Linked(t, fl, 0);
    EntriesAreShort(t, fl[0]);
    DistinctTail(fl);
    DistinctPairs(fl);
    var e := Entry(t, fl[0]);
    var t' := Put(t, fl[0], Allocated(e)).(freeq := e.Owner);
    forall k | 0 <= k < |fl| - 1 ensures Linked(t', fl[1..], k) {
      assert Linked(t, fl, k + 1);
    }
    forall i: nat | HasEntry(t', i) && Entry(t', i).Type.TFree? ensures i in fl[1..] {
      assert i in fl && i != fl[0];
      var k :| 0 <= k < |fl| && fl[k] == i;
      assert fl[1..][k - 1] == i;
    }
  }

  lemma PushFreeList(t: Table, fl: seq<nat>, i: nat)
    requires ShapeOk(t) && FreeList(t, fl) && HasEntry(t, i) && !Entry(t, i).Type.TFree?
    ensures i < 0x1_0000
    ensures FreeList(Put(t, i, Freed(Entry(t, i), t.freeq)).(freeq := i), [i] + fl)
  {
    EntriesAreShort(t, i);
    var t' := Put(t, i, Freed(Entry(t, i), t.freeq)).(freeq := i);
    forall k | 0 <= k < |fl| + 1 ensures Linked(t', [i] + fl, k) {
      if k > 0 {
        assert Linked(t, fl, k - 1);
      }
    }
    forall k | 0 <= k < |fl| ensures fl[k] != i {
      assert Linked(t, fl, k);
    }
    DistinctConcat([i], fl);
  }

  lemma PopPortValid(t: Table)
    requires Valid(t) && HasEntry(t, Index(t.freeq)) && t.freeq != MIN_INT
    ensures Index(t.freeq) < 0x1_0000 && Entry(t, Index(t.freeq)).Type.TFree? && Valid(PopPort(t).0)
  {
    var fl :| FreeList(t, fl);
    PopFreeList(t, fl);
    var e := Entry(t, fl[0]);
    PutShape(t, fl[0], Allocated(e), e.Owner);
  }

  /**
   The new descriptor leads back to its own entry, which was free, and so
   differs from every live descriptor; every other entry stays as it was, and
   the table stays well formed.
   */
  lemma NewPortIsNew(t: Table)
    requires Valid(t) && CanAllocate(t)
    ensures var (t', port) := NewPort(t);
            && Valid(t')
            && IsLive(t', port) && Entry(t', Index(port)).Type.TLocal?
            && (HasEntry(t, Index(port)) ==> Entry(t, Index(port)).Type.TFree?)
            && (forall q: Word :: IsLive(t, q) ==> Index(q) != Index(port) && IsLive(t', q))
            && (forall i: nat :: HasEntry(t, i) && i != Index(port) ==> HasEntry(t', i) && Entry(t', i) == Entry(t, i))
  {
    StockedValid(t);
    PopPortValid(Stocked(t));
  }

  /** Entries that were not there before start blank. */
  lemma NewPortAddsFresh(t: Table)
    requires Valid(t) && CanAllocate(t)
    ensures var (t', port) := NewPort(t);
            forall i: nat :: HasEntry(t', i) && !HasEntry(t, i) ==>
              Entry(t', i).Cycle == 1 && (i != Index(port) ==> IsBlank(Entry(t', i)))
  {
    StockedValid(t);
  }

  /** Ageing an entry, free or not, keeps the table well formed. */
  lemma AgeingKeepsValid(t: Table, i: nat, age: Byte)
    requires Valid(t) && HasEntry(t, i)
    ensures Valid(Put(t, i, Entry(t, i).(Age := age)))
  {
    var fl :| FreeList(t, fl);
    var e := Entry(t, i).(Age := age);
    PutShape(t, i, e, t.freeq);
    forall k | 0 <= k < |fl| ensures Linked(Put(t, i, e), fl, k) {
      assert Linked(t, fl, k);
    }
    assert FreeList(Put(t, i, e), fl);
  }

  /** _FreePort refuses stale, free and permanent ports and nothing else. */
  lemma FreePortFrees(t: Table, port: Word)
    requires Valid(t) && HasEntry(t, Index(port))
    ensures var (t', rc) := FreePort(t, port);
            && Valid(t')
            && (rc.ErrNull? <==> IsLive(t, port) && !Entry(t, Index(port)).Type.TPermanent?)
            && (rc.ErrBadPort? ==> t' == t)
            && (rc.ErrNull? ==> !IsLive(t', port) && NotSameCycle(port, Entry(t', Index(port))))
            && (forall i: nat :: HasEntry(t, i) && i != Index(port) ==> HasEntry(t', i) && Entry(t', i) == Entry(t, i))
  {
    var i := Index(port);
    if FreePort(t, port).1.ErrNull? {
      var fl :| FreeList(t, fl);
      PushFreeList(t, fl, i);
      PutShape(t, i, Freed(Entry(t, i), t.freeq), i);
    }
  }

  // ---- Runs ----

  /** Write stands for the kernel's assignments to an entry in use. */
  datatype Op = New | Free(port: Word) | Write(i: nat, e: PTE)

  function Apply(t: Table, op: Op): Table
  {
    match op
    case New => if CanAllocate(t) then NewPort(t).0 else t
    case Free(port) => if HasEntry(t, Index(port)) then FreePort(t, port).0 else t
    case Write(i, e) =>
      if HasEntry(t, i) && !Entry(t, i).Type.TFree? && !e.Type.TFree? && e.Cycle == Entry(t, i).Cycle
      then Put(t, i, e) else t
  }

  function Run(t: Table, ops: seq<Op>): Table
    decreases |ops|
  {
    if ops == [] then t else Run(Apply(t, ops[0]), ops[1..])
  }

  /** How often one operation, and a run, frees entry i. */
  function FreesNow(t: Table, op: Op, i: nat): nat
  {
    if op.Free? && Index(op.port) == i && HasEntry(t, i) && FreePort(t, op.port).1.ErrNull? then 1 else 0
  }

  function Frees(t: Table, ops: seq<Op>, i: nat): nat
    decreases |ops|
  {
    if ops == [] then 0 else FreesNow(t, ops[0], i) + Frees(Apply(t, ops[0]), ops[1..], i)
  }

  lemma ApplyValid(t: Table, op: Op)
    requires Valid(t)
    ensures Valid(Apply(t, op))
  {
    match op
    case New => if CanAllocate(t) { NewPortIsNew(t); }
    case Free(port) => if HasEntry(t, Index(port)) { FreePortFrees(t, port); }
    case Write(i, e) =>
      if Apply(t, op) != t {
        var fl :| FreeList(t, fl);
        PutShape(t, i, e, t.freeq);
        var t' := Put(t, i, e);
        forall k | 0 <= k < |fl| ensures Linked(t', fl, k) {
          assert Linked(t, fl, k);
        }
        assert FreeList(t', fl);
      }
  }

  lemma ApplyCycle(t: Table, op: Op, i: nat)
    requires Valid(t) && HasEntry(t, i) && i < 0x1_0000
    ensures HasEntry(Apply(t, op), i)
    ensures Entry(Apply(t, op), i).Cycle
         == if FreesNow(t, op, i) == 1 then Next(Entry(t, i).Cycle) else Entry(t, i).Cycle
  {
    match op
    case New => if CanAllocate(t) { NewPortCycle(t, i); }
    case Free(port) => if HasEntry(t, Index(port)) { FreePortCycle(t, port, i); }
    case Write(j, e) =>
  }

  lemma NewPortCycle(t: Table, i: nat)
    requires Valid(t) && CanAllocate(t) && HasEntry(t, i)
    ensures HasEntry(NewPort(t).0, i) && Entry(NewPort(t).0, i).Cycle == Entry(t, i).Cycle
  {
    StockedValid(t);
  }

  lemma FreePortCycle(t: Table, port: Word, i: nat)
    requires HasEntry(t, Index(port)) && HasEntry(t, i)
    ensures var (t', rc) := FreePort(t, port);
            && HasEntry(t', i)
            && Entry(t', i).Cycle
               == if rc.ErrNull? && i == Index(port) then Next(Entry(t, i).Cycle) else Entry(t, i).Cycle
  {
  }

  lemma {:induction false} RunValid(t: Table, ops: seq<Op>)
    requires Valid(t)
    ensures Valid(Run(t, ops))
    decreases |ops|
  {
    if ops != [] {
      ApplyValid(t, ops[0]);
      RunValid(Apply(t, ops[0]), ops[1..]);
    }
  }

  /** The counter after n more frees: a byte, incremented n times. */
  function Bumped(c: Byte, n: nat): (r: Byte)
    decreases n
  {
    if n == 0 then c else Bumped(Next(c), n - 1)
  }

  lemma {:induction false} BumpedWraps(c: Byte, n: nat)
    ensures Bumped(c, n) == (c + n) % 0x100
    decreases n
  {
    if n > 0 {
      BumpedWraps(Next(c), n - 1);
    }
  }

  lemma BumpedFirst(c: Byte, now: nat, later: nat)
    requires now <= 1
    ensures Bumped(if now == 1 then Next(c) else c, later) == Bumped(c, now + later)
  {
  }

  lemma {:induction false} CycleCountsFrees(t: Table, ops: seq<Op>, i: nat)
    requires Valid(t) && HasEntry(t, i) && i < 0x1_0000
    ensures HasEntry(Run(t, ops), i)
    ensures Entry(Run(t, ops), i).Cycle == Bumped(Entry(t, i).Cycle, Frees(t, ops, i))
    decreases |ops|
  {
    if ops != [] {
      ApplyValid(t, ops[0]);
      ApplyCycle(t, ops[0], i);
      CycleCountsFrees(Apply(t, ops[0]), ops[1..], i);
      BumpedFirst(Entry(t, i).Cycle, FreesNow(t, ops[0], i), Frees(Apply(t, ops[0]), ops[1..], i));
    }
  }

  /**
   A descriptor passes the cycle check, over any run after it was issued, just
   when its entry has since been freed a multiple of 256 times.
   */
  lemma StaleDescriptors(t: Table, ops: seq<Op>)
    requires Valid(t) && CanAllocate(t)
    ensures var (t', port) := NewPort(t);
            && HasEntry(Run(t', ops), Index(port))
            && (!NotSameCycle(port, Entry(Run(t', ops), Index(port)))
                <==> Frees(t', ops, Index(port)) % 0x100 == 0)
  {
    NewPortIsNew(t);
    var (t', port) := NewPort(t);
    LiveThenStale(t', port, ops);
  }

  lemma LiveThenStale(t: Table, port: Word, ops: seq<Op>)
    requires Valid(t) && IsLive(t, port)
    ensures HasEntry(Run(t, ops), Index(port))
    ensures !NotSameCycle(port, Entry(Run(t, ops), Index(port))) <==> Frees(t, ops, Index(port)) % 0x100 == 0
  {
    CycleCountsFrees(t, ops, Index(port));
    WrapsBack(PortCycle(port), Frees(t, ops, Index(port)));
  }

  lemma WrapsBack(c: Byte, n: nat)
    ensures Bumped(c, n) == c <==> n % 0x100 == 0
  {
    BumpedWraps(c, n);
    var q, r := n / 0x100, n % 0x100;
    if c + r < 0x100 {
      ByteRemainder(c + n, q, c + r);
    } else {
      ByteRemainder(c + n, q + 1, c + r - 0x100);
    }
  }

  lemma ByteRemainder(x: nat, q: nat, r: nat)
    requires x == 0x100 * q + r && r < 0x100
    ensures x % 0x100 == r
  {
  }

  lemma FirstFreeIs(base: seq<Slot>, b: nat)
    requires b < |base| && !base[b].Sub? && forall k :: 0 <= k < b ==> base[k].Sub?
    ensures FirstFree(base) == b
  {
  }

  // ---- The code ----

  /** The part of the kernel's root structure that holds the port table. */
  class RootStruct {
    var PortTable: seq<Slot>
    var PTFreeq: Word

    ghost function Tab(): Table
      reads this
    {
      Table(PortTable, PTFreeq)
    }

    /** PortInit: eight base slots and three sub-tables. */
    constructor PortInit()
      ensures Valid(Tab())
      ensures forall i: nat :: HasEntry(Tab(), i) <==> i / 0x100 < 3 && i % 0x100 < BLOCK
      ensures forall i: nat :: HasEntry(Tab(), i) ==> Entry(Tab(), i).Type.TFree? && Entry(Tab(), i).Cycle == 1
    {
      PTFreeq := MIN_INT;
      PortTable := seq(8, k => if k < 7 then Unused else Null);
      new;
      ghost var fl := [];
      assert FreeList(Tab(), fl);
      var i := 0;
      while i < 3
        invariant 0 <= i <= 3 && |PortTable| == 8 && ShapeOk(Tab()) && FreeList(Tab(), fl)
        invariant forall k :: 0 <= k < 8 ==>
            if k < i then PortTable[k].Sub? else if k < 7 then PortTable[k].Unused? else PortTable[k].Null?
        invariant forall j: nat :: HasEntry(Tab(), j) ==> Entry(Tab(), j).Type.TFree? && Entry(Tab(), j).Cycle == 1
      {
        FirstFreeIs(PortTable, i);
        ExtendFreeList(Tab(), fl);
        ExtendKeepsEntries(Tab());
        fl := FreshList(i) + fl;
        ExtendTable();
        i := i + 1;
      }
    }

    /** The first part of ExtendTable: look for a free slot in the table. */
    method FreeSlot() returns (btindex: nat)
      requires ShapeOk(Tab())
      modifies this`PortTable
      ensures btindex == FirstFree(old(PortTable))
      ensures PortTable == if old(PortTable)[btindex].Unused? then old(PortTable) else Doubled(old(PortTable))
    {
      var basetab := PortTable;
      btindex := 0;
      while !basetab[btindex].Unused?
        invariant 0 <= btindex < |basetab|
        invariant basetab == PortTable == old(PortTable)
        invariant forall k :: 0 <= k < btindex ==> basetab[k].Sub?
        decreases |basetab| - btindex
      {
        if basetab[btindex].Null? {
          // the end of the table: allocate one of twice the size
          var newtab := seq(2 * |basetab|, k => Unused);
          newtab := newtab[2 * |basetab| - 1 := Null];
          newtab := basetab[..|basetab| - 1] + newtab[|basetab| - 1..];
          assert newtab == Doubled(basetab);
          PortTable := newtab;
          break;
        }
        btindex := btindex + 1;
      }
      FirstFreeIs(old(PortTable), btindex);
    }

    method ExtendTable()
      requires ShapeOk(Tab()) && Room(Tab())
      modifies this
      ensures Tab() == Extended(old(Tab()))
    {
      var btindex := FreeSlot();
      var basetab := PortTable;
      // add new ports to port table
      var newtab := [];
      var ptindex := 0;
      while ptindex < BLOCK
        invariant 0 <= ptindex <= BLOCK && |newtab| == ptindex
        invariant forall k :: 0 <= k < ptindex ==> newtab[k] == FreshEntry(btindex, k, old(PTFreeq))
        invariant PTFreeq == if ptindex == 0 then old(PTFreeq) else btindex * 0x100 + ptindex - 1
        invariant PortTable == basetab
      {
        newtab := newtab + [PTE(TFree, 0, 1, 0, PTFreeq, 0, 0)];
        PTFreeq := btindex * 0x100 + ptindex;
        ptindex := ptindex + 1;
      }
      assert newtab == FreshEntries(btindex, old(PTFreeq));
      PortTable := basetab[btindex := Sub(newtab)];
    }

    method KernelNewPort() returns (port: Word)
      requires Valid(Tab()) && CanAllocate(Tab())
      modifies this
      ensures (Tab(), port) == NewPort(old(Tab()))
    {
      Stock();
      port := UnlinkFree();
    }

    /** The first part of _NewPort. */
    method Stock()
      requires ShapeOk(Tab()) && CanAllocate(Tab())
      modifies this
      ensures Tab() == Stocked(old(Tab()))
    {
      if PTFreeq == MIN_INT {
        ExtendTable();
      }
    }

    /** The second. */
    method UnlinkFree() returns (port: Word)
      requires HasEntry(Tab(), Index(PTFreeq))
      modifies this
      ensures (Tab(), port) == PopPort(old(Tab()))
    {
      var i := Index(PTFreeq);
      var pte := Entry(Table(PortTable, PTFreeq), i);
      PortTable := Put(Table(PortTable, PTFreeq), i, Allocated(pte)).base;
      PTFreeq := pte.Owner;
      port := Descriptor(i, pte.Cycle);
    }

    method KernelFreePort(port: Word) returns (rc: Code)
      requires HasEntry(Tab(), Index(port))
      modifies this
      ensures (Tab(), rc) == FreePort(old(Tab()), port)
    {
      var i := Index(port);
      var pte := Entry(Table(PortTable, PTFreeq), i);
      if NotSameCycle(port, pte) { return ErrBadPort; }
      if pte.Type.TFree? || pte.Type.TPermanent? { return ErrBadPort; }
      PortTable := Put(Table(PortTable, PTFreeq), i, Freed(pte, PTFreeq)).base;
      PTFreeq := i;
      rc := ErrNull;
    }
  }
}
