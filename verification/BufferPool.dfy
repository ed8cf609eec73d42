/**
 The byte-buffer pool (src/buffer_pool.rs) as a machine whose steps are the atomic actions of any number
 of threads: popping and pushing the locked idle list, writing a buffer, freezing, cloning, and the drop of
 a `PooledBytes` split into its uniqueness check and either the later decrement (check failed) or the
 clear-and-push of `release` (check passed).
 */
module BufferPool {
  type Bytes = seq<bv8>
  type Alloc = nat
  type Id = nat

  /** What one owner holds on an allocation; `seen` is the content at freeze time. */
  datatype Handle =
    | Mutable(a: Alloc)
    | Frozen(a: Alloc, seen: Bytes)
    | Raw(a: Alloc, seen: Bytes)
    | Dropping(a: Alloc)
    | Unique(a: Alloc)
    | Cleared(a: Alloc)
  {
    predicate Readable() { Frozen? || Raw? }
    predicate Exclusive() { Mutable? || Unique? || Cleared? }
  }

  datatype Cell = Cell(bytes: Bytes, refs: nat)

  /** `heap` holds the allocations not yet freed; `nextAlloc` and `nextId` are fresh names. */
  datatype Pool = Pool(
    size: nat,
    idle: seq<Alloc>,
    heap: map<Alloc, Cell>,
    handles: map<Id, Handle>,
    nextAlloc: Alloc,
    nextId: Id)

  function Empty(size: nat): Pool { Pool(size, [], map[], map[], 0, 0) }

  datatype Step =
    | Acquire
    | Write(h: Id, bytes: Bytes)
    | Freeze(h: Id)
    | Clone(h: Id)
    | IntoInner(h: Id)
    | Discard(h: Id)
    | Check(h: Id)
    | Decrement(h: Id)
    | Clear(h: Id)
    | Push(h: Id)

  /** A step names a handle of the kind it applies to. */
  predicate Enabled(s: Pool, t: Step) {
    match t
    case Acquire => true
    case Write(h, _) => h in s.handles && s.handles[h].Mutable?
    case Freeze(h) => h in s.handles && s.handles[h].Mutable?
    case Clone(h) => h in s.handles && s.handles[h].Readable()
    case IntoInner(h) => h in s.handles && s.handles[h].Frozen?
    case Discard(h) => h in s.handles && (s.handles[h].Mutable? || s.handles[h].Raw?)
    case Check(h) => h in s.handles && s.handles[h].Frozen?
    case Decrement(h) => h in s.handles && s.handles[h].Dropping?
    case Clear(h) => h in s.handles && s.handles[h].Unique?
    case Push(h) => h in s.handles && s.handles[h].Cleared?
  }

  function Retag(s: Pool, h: Id, x: Handle): Pool {
    s.(handles := s.handles[h := x])
  }

  /** One owner of `a` more. */
  function Gain(s: Pool, x: Handle): Pool
    requires x.a in s.heap
  {
    s.(heap := s.heap[x.a := s.heap[x.a].(refs := s.heap[x.a].refs + 1)],
       handles := s.handles[s.nextId := x],
       nextId := s.nextId + 1)
  }

  /** Owner `h` gives its reference up; the last one frees the allocation. */
  function Lose(s: Pool, h: Id): Pool
    requires h in s.handles
  {
    var a := s.handles[h].a;
    s.(heap := if a !in s.heap then s.heap
               else if s.heap[a].refs <= 1 then s.heap - {a}
               else s.heap[a := s.heap[a].(refs := s.heap[a].refs - 1)],
       handles := s.handles - {h})
  }

  /** `BufferPool::acquire`: pop the last idle buffer, or allocate. */
  function Acquired(s: Pool): Pool {
    var n := |s.idle|;
    if n > 0 && s.idle[n - 1] in s.heap then
      Gain(s.(idle := s.idle[..n - 1]), Mutable(s.idle[n - 1]))
    else
      Gain(s.(heap := s.heap[s.nextAlloc := Cell([], 0)], nextAlloc := s.nextAlloc + 1), Mutable(s.nextAlloc))
  }

  /** The second half of `release`: keep the buffer if there is room, free it otherwise. */
  function Pushed(s: Pool, h: Id): Pool
    requires h in s.handles
  {
    var a := s.handles[h].a;
    if |s.idle| < s.size && a in s.heap then
      s.(idle := s.idle + [a],
         heap := s.heap[a := s.heap[a].(refs := 0)],
         handles := s.handles - {h})
    else
      Lose(s, h)
  }

  function SetBytes(s: Pool, a: Alloc, bytes: Bytes): Pool {
    if a in s.heap then s.(heap := s.heap[a := s.heap[a].(bytes := bytes)]) else s
  }

  function Contents(s: Pool, a: Alloc): Bytes {
    if a in s.heap then s.heap[a].bytes else []
  }

  function Next(s: Pool, t: Step): Pool {
    if !Enabled(s, t) then s else
    match t
    case Acquire => Acquired(s)
    case Write(h, bytes) => SetBytes(s, s.handles[h].a, bytes)
    case Freeze(h) => Retag(s, h, Frozen(s.handles[h].a, Contents(s, s.handles[h].a)))
    case Clone(h) => if s.handles[h].a in s.heap then Gain(s, s.handles[h]) else s
    case IntoInner(h) => Retag(s, h, Raw(s.handles[h].a, s.handles[h].seen))
    case Discard(h) => Lose(s, h)
    case Check(h) =>
      var a := s.handles[h].a;
      Retag(s, h, if a in s.heap && s.heap[a].refs == 1 then Unique(a) else Dropping(a))
    case Decrement(h) => Lose(s, h)
    case Clear(h) => Retag(SetBytes(s, s.handles[h].a, []), h, Cleared(s.handles[h].a))
    case Push(h) => Pushed(s, h)
  }

  function Run(s: Pool, steps: seq<Step>): Pool {
    if steps == [] then s else Next(Run(s, steps[..|steps| - 1]), steps[|steps| - 1])
  }

  // ---- What every interleaving keeps ----

  function Owners(handles: map<Id, Handle>, a: Alloc): set<Id> {
    set h | h in handles && handles[h].a == a
  }

  function Count(handles: map<Id, Handle>, a: Alloc): nat { |Owners(handles, a)| }

  ghost predicate IdleInv(s: Pool) {
    && |s.idle| <= s.size
    && (forall i, j | 0 <= i < j < |s.idle| :: s.idle[i] != s.idle[j])
    && (forall a | a in s.idle :: a in s.heap && s.heap[a] == Cell([], 0))
  }

  /** The reference count is the number of owners, and nothing live is neither idle nor owned. */
  ghost predicate CountInv(s: Pool) {
    forall a | a in s.heap :: s.heap[a].refs == Count(s.handles, a) && (s.heap[a].refs == 0 ==> a in s.idle)
  }

  ghost predicate HandleOk(heap: map<Alloc, Cell>, x: Handle) {
    && x.a in heap
    && (x.Exclusive() ==> heap[x.a].refs == 1)
    && (x.Readable() ==> heap[x.a].bytes == x.seen)
    && (x.Cleared? ==> heap[x.a].bytes == [])
  }

  ghost predicate HandleInv(s: Pool) {
    forall h | h in s.handles :: HandleOk(s.heap, s.handles[h])
  }

  ghost predicate NamesInv(s: Pool) {
    && (forall a | a in s.heap :: a < s.nextAlloc)
    && (forall h | h in s.handles :: h < s.nextId)
  }

  ghost predicate Inv(s: Pool) {
    IdleInv(s) && CountInv(s) && HandleInv(s) && NamesInv(s)
  }

  lemma CountAdd(m: map<Id, Handle>, h: Id, x: Handle, a: Alloc)
    requires h !in m
    ensures Count(m[h := x], a) == Count(m, a) + if a == x.a then 1 else 0
  {
    if a == x.a {
      assert Owners(m[h := x], a) == Owners(m, a) + {h};
    } else {
      assert Owners(m[h := x], a) == Owners(m, a);
    }
  }

  lemma CountRemove(m: map<Id, Handle>, h: Id, a: Alloc)
    requires h in m
    ensures Count(m, a) == Count(m - {h}, a) + if a == m[h].a then 1 else 0
  {
    assert m == (m - {h})[h := m[h]];
    CountAdd(m - {h}, h, m[h], a);
  }

  lemma CountRetag(m: map<Id, Handle>, h: Id, x: Handle)
    requires h in m && m[h].a == x.a
    ensures forall a :: Count(m[h := x], a) == Count(m, a)
  {
    forall a
      ensures Count(m[h := x], a) == Count(m, a)
    {
      assert Owners(m[h := x], a) == Owners(m, a);
    }
  }

  lemma CountPair(m: map<Id, Handle>, h: Id, k: Id)
    requires h in m && k in m && m[h].a == m[k].a
    ensures Count(m, m[h].a) >= if h == k then 1 else 2
  {
    assert Owners(m, m[h].a) == Owners(m, m[h].a) - {h, k} + {h, k};
  }

  /** An owned allocation is not idle, and two owners of one allocation are both shared ones. */
  lemma OwnerCounts(s: Pool, h: Id)
    requires Inv(s) && h in s.handles
    ensures s.heap[s.handles[h].a].refs >= 1 && s.handles[h].a !in s.idle
    ensures forall k | k in s.handles && s.handles[k].a == s.handles[h].a && k != h ::
      s.heap[s.handles[h].a].refs >= 2 && !s.handles[k].Exclusive() && !s.handles[h].Exclusive()
  {
    CountPair(s.handles, h, h);
    forall k | k in s.handles && s.handles[k].a == s.handles[h].a && k != h
      ensures s.heap[s.handles[h].a].refs >= 2
    {
      CountPair(s.handles, h, k);
    }
  }

  lemma GainKeeps(s: Pool, x: Handle)
    requires IdleInv(s) && HandleInv(s) && NamesInv(s)
    requires x.a in s.heap && x.a !in s.idle
    requires forall a | a in s.heap ::
      s.heap[a].refs == Count(s.handles, a) && (s.heap[a].refs == 0 ==> a in s.idle || a == x.a)
    requires x.Exclusive() ==> s.heap[x.a].refs == 0
    requires x.Mutable? || (x.Readable() && s.heap[x.a].bytes == x.seen)
    requires forall h | h in s.handles && s.handles[h].a == x.a :: !s.handles[h].Exclusive()
    ensures Inv(Gain(s, x))
  {
    hide IdleInv, HandleInv, CountInv, Count, HandleOk, Owners;
    GainKeepsCounts(s, x);
    GainKeepsHandles(s, x);
    GainKeepsIdle(s, x);
  }

  lemma GainKeepsIdle(s: Pool, x: Handle)
    requires IdleInv(s) && x.a in s.heap && x.a !in s.idle
    ensures IdleInv(Gain(s, x))
  {
  }

  lemma GainKeepsHandles(s: Pool, x: Handle)
    requires HandleInv(s) && x.a in s.heap && (x.Exclusive() ==> s.heap[x.a].refs == 0)
    requires x.Mutable? || (x.Readable() && s.heap[x.a].bytes == x.seen)
    requires forall h | h in s.handles && s.handles[h].a == x.a :: !s.handles[h].Exclusive()
    ensures HandleInv(Gain(s, x))
  {
  }

  lemma GainKeepsCounts(s: Pool, x: Handle)
    requires x.a in s.heap && s.nextId !in s.handles
    requires forall a | a in s.heap ::
      s.heap[a].refs == Count(s.handles, a) && (s.heap[a].refs == 0 ==> a in s.idle || a == x.a)
    ensures CountInv(Gain(s, x))
  {
    hide Count;
    forall a | a in s.heap
      ensures Gain(s, x).heap[a].refs == Count(Gain(s, x).handles, a)
    {
      CountAdd(s.handles, s.nextId, x, a);
    }
  }

  lemma NoOwners(s: Pool, a: Alloc)
    requires Count(s.handles, a) == 0
    ensures forall h | h in s.handles :: s.handles[h].a != a
  {
    forall h | h in s.handles
      ensures s.handles[h].a != a
    {
      assert h in Owners(s.handles, a) <==> s.handles[h].a == a;
    }
  }

  lemma AcquireKeeps(s: Pool)
    requires Inv(s)
    ensures Inv(Acquired(s))
  {
    hide Gain;
    var n := |s.idle|;
    if n > 0 {
      var a := s.idle[n - 1];
      NoOwners(s, a);
      var t := s.(idle := s.idle[..n - 1]);
      assert forall b | b in s.idle :: b in t.idle || b == a;
      GainKeeps(t, Mutable(a));
    } else {
      var a := s.nextAlloc;
      assert Owners(s.handles, a) == {};
      assert Count(s.handles, a) == 0;
      GainKeeps(s.(heap := s.heap[a := Cell([], 0)], nextAlloc := a + 1), Mutable(a));
    }
  }

  lemma LoseKeeps(s: Pool, h: Id)
    requires Inv(s) && h in s.handles
    ensures Inv(Lose(s, h))
  {
    OwnerCounts(s, h);
    hide Count;
    LoseKeepsCounts(s, h);
    assert HandleInv(Lose(s, h)) by {
      hide IdleInv, CountInv;
    }
    hide CountInv, HandleInv;
  }

  lemma LoseKeepsCounts(s: Pool, h: Id)
    requires CountInv(s) && h in s.handles && s.handles[h].a in s.heap && s.handles[h].a !in s.idle
    ensures CountInv(Lose(s, h))
  {
    hide Count;
    forall a | a in s.heap
      ensures Count(s.handles, a) == Count(s.handles - {h}, a) + if a == s.handles[h].a then 1 else 0
    {
      CountRemove(s.handles, h, a);
    }
  }

  lemma PushKeeps(s: Pool, h: Id)
    requires Inv(s) && h in s.handles && s.handles[h].Cleared?
    ensures Inv(Pushed(s, h))
  {
    OwnerCounts(s, h);
    if |s.idle| < s.size {
      hide Count;
      PushKeepsCounts(s, h);
      hide CountInv;
    } else {
      hide Inv;
      LoseKeeps(s, h);
    }
  }

  lemma PushKeepsCounts(s: Pool, h: Id)
    requires CountInv(s) && h in s.handles && s.handles[h].a in s.heap && s.heap[s.handles[h].a].refs == 1
    requires |s.idle| < s.size
    ensures CountInv(Pushed(s, h))
  {
    hide Count;
    forall a | a in s.heap
      ensures Count(s.handles, a) == Count(s.handles - {h}, a) + if a == s.handles[h].a then 1 else 0
    {
      CountRemove(s.handles, h, a);
    }
  }

  /** Only the sole owner changes the bytes. */
  lemma SetBytesKeeps(s: Pool, h: Id, bytes: Bytes)
    requires Inv(s) && h in s.handles && (s.handles[h].Mutable? || s.handles[h].Unique?)
    ensures Inv(SetBytes(s, s.handles[h].a, bytes))
  {
    OwnerCounts(s, h);
  }

  lemma RetagKeeps(s: Pool, h: Id, x: Handle)
    requires Inv(s) && h in s.handles && x.a == s.handles[h].a
    requires x.Exclusive() ==> s.heap[x.a].refs == 1
    requires x.Readable() ==> s.heap[x.a].bytes == x.seen
    requires x.Cleared? ==> s.heap[x.a].bytes == []
    ensures Inv(Retag(s, h, x))
  {
    CountRetag(s.handles, h, x);
  }

  lemma NextKeepsInv(s: Pool, t: Step)
    requires Inv(s)
    ensures Inv(Next(s, t))
  {
    if Enabled(s, t) {
      match t {
        case Acquire => AcquireKeeps(s);
        case Write(h, bytes) => SetBytesKeeps(s, h, bytes);
        case Freeze(h) => RetagKeeps(s, h, Frozen(s.handles[h].a, Contents(s, s.handles[h].a)));
        case Clone(h) => CloneKeeps(s, h);
        case IntoInner(h) => RetagKeeps(s, h, Raw(s.handles[h].a, s.handles[h].seen));
        case Discard(h) => LoseKeeps(s, h);
        case Check(h) =>
          var a := s.handles[h].a;
          RetagKeeps(s, h, if s.heap[a].refs == 1 then Unique(a) else Dropping(a));
        case Decrement(h) => LoseKeeps(s, h);
        case Clear(h) => ClearKeeps(s, h);
        case Push(h) => PushKeeps(s, h);
      }
    }
  }

  lemma CloneKeeps(s: Pool, h: Id)
    requires Inv(s) && h in s.handles && s.handles[h].Readable()
    ensures Inv(Gain(s, s.handles[h]))
  {
    OwnerCounts(s, h);
    forall k | k in s.handles && s.handles[k].a == s.handles[h].a
      ensures !s.handles[k].Exclusive()
    {
      OwnerCounts(s, k);
    }
    GainKeeps(s, s.handles[h]);
  }

  lemma ClearKeeps(s: Pool, h: Id)
    requires Inv(s) && h in s.handles && s.handles[h].Unique?
    ensures Inv(Retag(SetBytes(s, s.handles[h].a, []), h, Cleared(s.handles[h].a)))
  {
    SetBytesKeeps(s, h, []);
    RetagKeeps(SetBytes(s, s.handles[h].a, []), h, Cleared(s.handles[h].a));
  }

  lemma {:induction false} RunKeepsInv(s: Pool, steps: seq<Step>)
    requires Inv(s)
    ensures Inv(Run(s, steps))
  {
    if steps != [] {
      RunKeepsInv(s, steps[..|steps| - 1]);
      NextKeepsInv(Run(s, steps[..|steps| - 1]), steps[|steps| - 1]);
    }
  }

  ghost predicate Owned(s: Pool, a: Alloc) {
    exists h :: h in s.handles && s.handles[h].a == a
  }

  /**
   Every interleaving of any threads: the idle list holds at most `size` buffers, no buffer twice, each of
   them empty and owned by nobody; every other allocation still alive has an owner; and an owner that may
   write or recycle is the only one.
   */
  lemma {:induction false} PoolSafety(size: nat, steps: seq<Step>)
    ensures var s := Run(Empty(size), steps);
      && |s.idle| <= size
      && (forall i, j | 0 <= i < j < |s.idle| :: s.idle[i] != s.idle[j])
      && (forall a | a in s.idle :: Contents(s, a) == [] && !Owned(s, a))
      && (forall a :: a in s.heap <==> a in s.idle || Owned(s, a))
      && (forall h, k | h in s.handles && k in s.handles && s.handles[h].a == s.handles[k].a && h != k ::
            !s.handles[h].Exclusive())
  {
    var s := Run(Empty(size), steps);
    RunKeepsInv(Empty(size), steps);
    SizeKept(Empty(size), steps);
    forall h | h in s.handles
      ensures s.handles[h].a in s.heap && s.handles[h].a !in s.idle
      ensures forall k | k in s.handles && s.handles[h].a == s.handles[k].a && h != k :: !s.handles[h].Exclusive()
    {
      OwnerCounts(s, h);
    }
    forall a | a in s.heap && a !in s.idle
      ensures Owned(s, a)
    {
      var h :| h in Owners(s.handles, a);
    }
  }

  lemma {:induction false} SizeKept(s: Pool, steps: seq<Step>)
    ensures Run(s, steps).size == s.size
  {
    if steps != [] {
      SizeKept(s, steps[..|steps| - 1]);
    }
  }

  // ---- Frozen bytes ----

  /** Names are never reused, and a readable handle never becomes a writable one. */
  ghost predicate KeepsSnapshot(s: Pool, h: Id, a: Alloc, seen: Bytes) {
    && h < s.nextId
    && (h in s.handles ==>
          s.handles[h].a == a && !s.handles[h].Mutable? && (s.handles[h].Readable() ==> s.handles[h].seen == seen))
  }

  lemma SnapshotStep(s: Pool, t: Step, h: Id, a: Alloc, seen: Bytes)
    requires KeepsSnapshot(s, h, a, seen)
    ensures KeepsSnapshot(Next(s, t), h, a, seen)
  {
  }

  lemma {:induction false} SnapshotRun(s: Pool, steps: seq<Step>, h: Id, a: Alloc, seen: Bytes)
    requires KeepsSnapshot(s, h, a, seen)
    ensures KeepsSnapshot(Run(s, steps), h, a, seen)
  {
    if steps != [] {
      SnapshotRun(s, steps[..|steps| - 1], h, a, seen);
      SnapshotStep(Run(s, steps[..|steps| - 1]), steps[|steps| - 1], h, a, seen);
    }
  }

  /** Whatever the other threads do, the bytes read through one frozen handle are always the same. */
  lemma FrozenBytesNeverChange(s: Pool, steps: seq<Step>, h: Id)
    requires Inv(s) && h in s.handles && s.handles[h].Readable()
    requires h in Run(s, steps).handles && Run(s, steps).handles[h].Readable()
    ensures Contents(Run(s, steps), Run(s, steps).handles[h].a) == Contents(s, s.handles[h].a)
  {
    RunKeepsInv(s, steps);
    SnapshotRun(s, steps, h, s.handles[h].a, s.handles[h].seen);
  }

  // ---- Sharing and recycling are invisible ----

  /** What one owner holds if every owner had a buffer of its own: no sharing, no counts, no pool. */
  datatype Private = Writing(bytes: Bytes) | Sharing(bytes: Bytes) | Taken(bytes: Bytes)

  datatype Privates = Privates(held: map<Id, Private>, next: Id)

  function NextPrivate(v: Privates, t: Step): Privates {
    match t
    case Acquire => Privates(v.held[v.next := Writing([])], v.next + 1)
    case Write(h, bytes) =>
      if h in v.held && v.held[h].Writing? then v.(held := v.held[h := Writing(bytes)]) else v
    case Freeze(h) =>
      if h in v.held && v.held[h].Writing? then v.(held := v.held[h := Sharing(v.held[h].bytes)]) else v
    case Clone(h) =>
      if h in v.held && !v.held[h].Writing? then Privates(v.held[v.next := v.held[h]], v.next + 1) else v
    case IntoInner(h) =>
      if h in v.held && v.held[h].Sharing? then v.(held := v.held[h := Taken(v.held[h].bytes)]) else v
    case Discard(h) =>
      if h in v.held && !v.held[h].Sharing? then v.(held := v.held - {h}) else v
    case Check(h) =>
      if h in v.held && v.held[h].Sharing? then v.(held := v.held - {h}) else v
    case _ => v
  }

  function RunPrivate(steps: seq<Step>): Privates {
    if steps == [] then Privates(map[], 0) else NextPrivate(RunPrivate(steps[..|steps| - 1]), steps[|steps| - 1])
  }

  predicate InUse(x: Handle) { x.Mutable? || x.Readable() }

  /** What an owner in the pool reads. */
  function Reads(s: Pool, x: Handle): Private
    requires InUse(x)
  {
    if x.Mutable? then Writing(Contents(s, x.a))
    else if x.Frozen? then Sharing(Contents(s, x.a))
    else Taken(Contents(s, x.a))
  }

  predicate SameAt(s: Pool, v: Privates, h: Id) {
    && (h in v.held <==> h in s.handles && InUse(s.handles[h]))
    && (h in v.held ==> v.held[h] == Reads(s, s.handles[h]))
  }

  /** Handle by handle, the pool and the private buffers show the same. */
  ghost predicate Same(s: Pool, v: Privates) { s.nextId == v.next && forall h :: SameAt(s, v, h) }

  /** The handle a step makes or acts through. */
  function Touched(s: Pool, t: Step): Id { if t.Acquire? || t.Clone? then s.nextId else t.h }

  /** Owner `h` is where it was, and reads what it read. */
  predicate Unmoved(s: Pool, u: Pool, h: Id) {
    && (h in u.handles <==> h in s.handles)
    && (h in s.handles ==> u.handles[h] == s.handles[h] && Contents(u, s.handles[h].a) == Contents(s, s.handles[h].a))
  }

  lemma AcquireLeavesOthers(s: Pool, h: Id)
    requires Inv(s) && h in s.handles
    ensures Unmoved(s, Acquired(s), h)
  {
    OwnerCounts(s, h);
  }

  /** Only a sole owner writes, so no other owner sees it. */
  lemma WriteLeavesOthers(s: Pool, g: Id, bytes: Bytes, h: Id)
    requires Inv(s) && g in s.handles && s.handles[g].Exclusive() && h in s.handles && h != g
    ensures Unmoved(s, SetBytes(s, s.handles[g].a, bytes), h)
  {
    OwnerCounts(s, g);
    hide Inv;
  }

  lemma LoseLeavesOthers(s: Pool, g: Id, h: Id)
    requires Inv(s) && g in s.handles && h in s.handles && h != g
    ensures Unmoved(s, Lose(s, g), h)
  {
    OwnerCounts(s, h);
    hide Inv;
  }

  lemma PushLeavesOthers(s: Pool, g: Id, h: Id)
    requires Inv(s) && g in s.handles && s.handles[g].Cleared? && h in s.handles && h != g
    ensures Unmoved(s, Pushed(s, g), h)
  {
    OwnerCounts(s, g);
    LoseLeavesOthers(s, g, h);
    hide Inv, Lose;
  }

  lemma CloneLeavesOthers(s: Pool, g: Id, h: Id)
    requires Inv(s) && g in s.handles && s.handles[g].a in s.heap && h in s.handles
    ensures Unmoved(s, Gain(s, s.handles[g]), h)
  {
  }

  /** A step moves only the owner it acts through. */
  lemma OthersUnmoved(s: Pool, t: Step, h: Id)
    requires Inv(s) && Enabled(s, t) && h in s.handles && h != Touched(s, t)
    ensures Unmoved(s, Next(s, t), h)
  {
    match t {
      case Acquire => AcquireLeavesOthers(s, h);
      case Write(g, bytes) => WriteLeavesOthers(s, g, bytes, h);
      case Clone(g) => CloneLeavesOthers(s, g, h);
      case Discard(g) => LoseLeavesOthers(s, g, h);
      case Decrement(g) => LoseLeavesOthers(s, g, h);
      case Clear(g) => WriteLeavesOthers(s, g, [], h);
      case Push(g) => PushLeavesOthers(s, g, h);
      case _ =>
    }
    hide Inv, Lose, Pushed, Gain, SetBytes, Acquired, Contents;
  }

  lemma OthersAbsent(s: Pool, t: Step, h: Id)
    requires Enabled(s, t) && h !in s.handles && h != Touched(s, t)
    ensures h !in Next(s, t).handles
  {
  }

  /** The owner the step acts through moves as its private buffer does. */
  lemma TouchedIsPrivate(s: Pool, v: Privates, t: Step)
    requires Inv(s) && Enabled(s, t) && Same(s, v)
    ensures SameAt(Next(s, t), NextPrivate(v, t), Touched(s, t))
    ensures Next(s, t).nextId == NextPrivate(v, t).next
  {
    assert SameAt(s, v, Touched(s, t));
    match t {
      case Acquire => AcquireGives(s);
      case Clone(h) => assert SameAt(s, v, h);
      case _ =>
    }
    assert !t.Acquire? ==> t.h in s.handles && s.handles[t.h].a in s.heap;
    hide Inv;
  }

  lemma StepIsPrivate(s: Pool, v: Privates, t: Step)
    requires Inv(s) && Same(s, v)
    ensures Same(Next(s, t), NextPrivate(v, t))
  {
    if Enabled(s, t) {
      TouchedIsPrivate(s, v, t);
      forall h
        ensures SameAt(Next(s, t), NextPrivate(v, t), h)
      {
        if h != Touched(s, t) {
          OtherIsPrivate(s, v, t, h);
        }
      }
    } else {
      DisabledIsPrivate(s, v, t);
    }
  }

  lemma OtherIsPrivate(s: Pool, v: Privates, t: Step, h: Id)
    requires Inv(s) && Enabled(s, t) && Same(s, v) && h != Touched(s, t)
    ensures SameAt(Next(s, t), NextPrivate(v, t), h)
  {
    assert SameAt(s, v, h);
    if h in s.handles {
      OthersUnmoved(s, t, h);
    } else {
      OthersAbsent(s, t, h);
    }
    hide Inv, Next, Contents, Same;
    assert v.next == s.nextId;
  }

  lemma DisabledIsPrivate(s: Pool, v: Privates, t: Step)
    requires !Enabled(s, t) && Same(s, v)
    ensures NextPrivate(v, t) == v
  {
    if !t.Acquire? {
      assert SameAt(s, v, t.h);
    }
    hide Contents, Same;
  }

  /**
   Every interleaving of any threads, over a pool of any size: each owner reads exactly what it would read if
   every acquired buffer were fresh and every clone a copy.
   */
  lemma {:induction false} PoolIsInvisible(size: nat, steps: seq<Step>)
    ensures Same(Run(Empty(size), steps), RunPrivate(steps))
  {
    if steps != [] {
      var n := |steps| - 1;
      PoolIsInvisible(size, steps[..n]);
      RunKeepsInv(Empty(size), steps[..n]);
      hide Inv, Same, Next, NextPrivate;
      StepIsPrivate(Run(Empty(size), steps[..n]), RunPrivate(steps[..n]), steps[n]);
    }
  }

  predicate NoWrite(steps: seq<Step>, h: Id) { forall i | 0 <= i < |steps| :: !(steps[i].Write? && steps[i].h == h) }

  /** Whoever `h` is by now, it holds `bytes`. */
  predicate Holds(v: Privates, h: Id, bytes: Bytes) { h < v.next && (h in v.held ==> v.held[h].bytes == bytes) }

  /** ... and it is not a writer any more. */
  predicate Settled(v: Privates, h: Id) { h < v.next && (h in v.held ==> !v.held[h].Writing?) }

  lemma {:induction false} HoldsOn(before: seq<Step>, steps: seq<Step>, h: Id, bytes: Bytes)
    requires Holds(RunPrivate(before), h, bytes) && (NoWrite(steps, h) || Settled(RunPrivate(before), h))
    ensures Holds(RunPrivate(before + steps), h, bytes)
    ensures Settled(RunPrivate(before), h) ==> Settled(RunPrivate(before + steps), h)
  {
    if steps == [] {
      assert before + steps == before;
    } else {
      var n := |steps| - 1;
      HoldsOn(before, steps[..n], h, bytes);
      assert (before + steps)[..|before| + n] == before + steps[..n];
    }
  }

  lemma PrivateSnoc(steps: seq<Step>, t: Step)
    ensures RunPrivate(steps + [t]) == NextPrivate(RunPrivate(steps), t)
  {
    assert (steps + [t])[..|steps|] == steps;
  }

  /** A write through a writable owner, and a clone of a readable one, in terms of the private buffers. */
  lemma WriteHolds(size: nat, before: seq<Step>, h: Id, bytes: Bytes)
    requires Enabled(Run(Empty(size), before), Write(h, bytes))
    ensures Holds(RunPrivate(before + [Write(h, bytes)]), h, bytes)
  {
    var s := Run(Empty(size), before);
    PoolIsInvisible(size, before);
    RunKeepsInv(Empty(size), before);
    PrivateSnoc(before, Write(h, bytes));
    hide Run, RunPrivate;
    assert SameAt(s, RunPrivate(before), h);
  }

  lemma CloneHolds(size: nat, before: seq<Step>, h: Id)
    requires var s := Run(Empty(size), before); h in s.handles && s.handles[h].Readable()
    ensures var s := Run(Empty(size), before);
      Holds(RunPrivate(before + [Clone(h)]), s.nextId, Contents(s, s.handles[h].a))
      && Settled(RunPrivate(before + [Clone(h)]), s.nextId)
  {
    var s := Run(Empty(size), before);
    PoolIsInvisible(size, before);
    PrivateSnoc(before, Clone(h));
    hide Run, RunPrivate;
    assert SameAt(s, RunPrivate(before), h);
  }

  lemma HoldsMeansReads(size: nat, steps: seq<Step>, h: Id, bytes: Bytes)
    requires Holds(RunPrivate(steps), h, bytes)
    ensures var s := Run(Empty(size), steps);
      h in s.handles && InUse(s.handles[h]) ==> Contents(s, s.handles[h].a) == bytes
  {
    PoolIsInvisible(size, steps);
    hide Run, RunPrivate;
    assert SameAt(Run(Empty(size), steps), RunPrivate(steps), h);
  }

  /**
   What was written is what is read: after the last write of `bytes` to `h`, whatever all threads do meanwhile,
   `h` reads `bytes` as long as it is in use: still writable, frozen, or taken out of the pool.
   */
  lemma WrittenIsRead(size: nat, before: seq<Step>, h: Id, bytes: Bytes, after: seq<Step>)
    requires Enabled(Run(Empty(size), before), Write(h, bytes)) && NoWrite(after, h)
    ensures var s := Run(Empty(size), before + [Write(h, bytes)] + after);
      h in s.handles && InUse(s.handles[h]) ==> Contents(s, s.handles[h].a) == bytes
  {
    hide Run, RunPrivate, Holds;
    WriteHolds(size, before, h, bytes);
    HoldsOn(before + [Write(h, bytes)], after, h, bytes);
    HoldsMeansReads(size, before + [Write(h, bytes)] + after, h, bytes);
  }

  /** A clone of a readable owner reads what the original read, then and ever after. */
  lemma CloneReadsTheSame(size: nat, before: seq<Step>, h: Id, after: seq<Step>)
    requires var s := Run(Empty(size), before); h in s.handles && s.handles[h].Readable()
    ensures var s := Run(Empty(size), before);
      var t := Run(Empty(size), before + [Clone(h)] + after);
      s.nextId in t.handles && InUse(t.handles[s.nextId]) ==>
        Contents(t, t.handles[s.nextId].a) == Contents(s, s.handles[h].a)
  {
    var s := Run(Empty(size), before);
    var bytes := Contents(s, s.handles[h].a);
    hide Run, RunPrivate, Holds, Settled;
    CloneHolds(size, before, h);
    HoldsOn(before + [Clone(h)], after, s.nextId, bytes);
    HoldsMeansReads(size, before + [Clone(h)] + after, s.nextId, bytes);
  }

  // ---- When the last drop gives the buffer back ----

  /** Nobody is left who could still hand the allocation to the pool. */
  ghost predicate Abandoned(s: Pool, a: Alloc) {
    && a < s.nextAlloc && a !in s.idle
    && (forall h | h in s.handles && s.handles[h].a == a :: s.handles[h].Raw? || s.handles[h].Dropping?)
  }

  lemma AbandonedStep(s: Pool, t: Step, a: Alloc)
    requires Abandoned(s, a)
    ensures Abandoned(Next(s, t), a)
  {
  }

  /** Bytes taken out with `into_inner`, and buffers whose drops all failed their check, are never recycled. */
  lemma {:induction false} AbandonedForever(s: Pool, steps: seq<Step>, a: Alloc)
    requires Abandoned(s, a)
    ensures Abandoned(Run(s, steps), a)
  {
    if steps != [] {
      AbandonedForever(s, steps[..|steps| - 1], a);
      AbandonedStep(Run(s, steps[..|steps| - 1]), steps[|steps| - 1], a);
    }
  }

  /** Step `k` hands allocation `a` to the idle list, which takes it if it has room. */
  ghost predicate ReleasedAt(s: Pool, steps: seq<Step>, k: nat, h: Id, a: Alloc) {
    && k < |steps| && steps[k] == Push(h)
    && h in Run(s, steps[..k]).handles && Run(s, steps[..k]).handles[h] == Cleared(a)
  }

  lemma ReleaseReturns(s: Pool, steps: seq<Step>, k: nat, h: Id, a: Alloc)
    requires Inv(s) && ReleasedAt(s, steps, k, h, a)
    ensures var u, v := Run(s, steps[..k]), Run(s, steps[..k + 1]);
      && (|u.idle| < u.size ==> v.idle == u.idle + [a] && Contents(v, a) == [])
      && (|u.idle| >= u.size ==> v.idle == u.idle && a !in v.heap)
  {
    RunKeepsInv(s, steps[..k]);
    assert steps[..k + 1][..k] == steps[..k];
  }

  /** A drop that passed its check stays on its way to the pool until it pushes. */
  lemma {:induction false} UniqueReleases(s: Pool, steps: seq<Step>, h: Id, a: Alloc)
    requires h in s.handles && (s.handles[h] == Unique(a) || s.handles[h] == Cleared(a)) && h < s.nextId
    ensures h < Run(s, steps).nextId
    ensures var t := Run(s, steps);
      || (h in t.handles && (t.handles[h] == Unique(a) || t.handles[h] == Cleared(a)))
      || (h !in t.handles && exists k :: ReleasedAt(s, steps, k, h, a))
  {
    if steps != [] {
      var n := |steps| - 1;
      UniqueReleases(s, steps[..n], h, a);
      var u := Run(s, steps[..n]);
      if h in u.handles {
        if steps[n] == Push(h) && u.handles[h] == Cleared(a) {
          assert ReleasedAt(s, steps, n, h, a);
        }
      } else {
        var k: nat :| ReleasedAt(s, steps[..n], k, h, a);
        assert steps[..n][..k] == steps[..k];
        assert ReleasedAt(s, steps, k, h, a);
      }
    }
  }

  /** Nothing gets into the idle list but by the release of a drop that passed its check. */
  lemma {:induction false} RecycledWasReleased(size: nat, steps: seq<Step>, a: Alloc)
    requires a in Run(Empty(size), steps).idle
    ensures exists k, h :: ReleasedAt(Empty(size), steps, k, h, a)
  {
    var n := |steps| - 1;
    var s := Run(Empty(size), steps[..n]);
    if a in s.idle {
      RecycledWasReleased(size, steps[..n], a);
      var k: nat, h: nat :| ReleasedAt(Empty(size), steps[..n], k, h, a);
      assert steps[..n][..k] == steps[..k];
      assert ReleasedAt(Empty(size), steps, k, h, a);
    } else {
      assert steps[n].Push?;
      assert ReleasedAt(Empty(size), steps, n, steps[n].h, a);
    }
  }

  /**
   The documented promise, that dropping the last `PooledBytes` returns the buffer, holds exactly when no
   earlier drop of the same buffer is still between its failed check and its decrement. `h` is the last
   reference not yet being dropped; `steps` is any continuation in which its drop finishes.
   */
  lemma LastDropReturnsIff(s: Pool, h: Id, steps: seq<Step>)
    requires Inv(s) && h in s.handles && s.handles[h].Frozen?
    requires forall k | k in s.handles && s.handles[k].a == s.handles[h].a && k != h :: s.handles[k].Dropping?
    requires h !in Run(Next(s, Check(h)), steps).handles
    ensures var t, a := Next(s, Check(h)), s.handles[h].a;
      (exists k :: ReleasedAt(t, steps, k, h, a))
      <==> forall k | k in s.handles && s.handles[k].a == a :: k == h
    ensures var t, a := Next(s, Check(h)), s.handles[h].a;
      (exists k | k in s.handles && s.handles[k].a == a :: k != h) ==> a !in Run(t, steps).idle
  {
    var t, a := Next(s, Check(h)), s.handles[h].a;
    OwnerCounts(s, h);
    if forall k | k in s.handles && s.handles[k].a == a :: k == h {
      assert Owners(s.handles, a) == {h};
      UniqueReleases(t, steps, h, a);
    } else {
      forall k: nat
        ensures !ReleasedAt(t, steps, k, h, a)
      {
        if k < |steps| {
          AbandonedForever(t, steps[..k], a);
        }
      }
      AbandonedForever(t, steps, a);
    }
  }

  const Shared: Pool := Pool(1, [], map[0 := Cell([], 2)], map[0 := Frozen(0, []), 1 := Frozen(0, [])], 1, 2)

  lemma SharedIsReachable()
    ensures Run(Empty(1), [Acquire, Freeze(0), Clone(0)]) == Shared
  {
    var setup := [Acquire, Freeze(0), Clone(0)];
    var held := Pool(1, [], map[0 := Cell([], 1)], map[0 := Mutable(0)], 1, 1);
    assert Next(Empty(1), Acquire) == held;
    assert setup[..2] == [Acquire, Freeze(0)] && setup[..2][..1] == [Acquire];
    assert Run(Empty(1), setup[..2][..1]) == held;
    assert Run(Empty(1), setup[..2]) == held.(handles := map[0 := Frozen(0, [])]);
  }

  /** Both checks see two references; both drops then only decrement. */
  lemma RaceSteps()
    ensures Next(Next(Next(Next(Shared, Check(0)), Check(1)), Decrement(0)), Decrement(1))
      == Empty(1).(nextAlloc := 1, nextId := 2)
  {
  }

  /** Two threads dropping the last two references lose the buffer: it is freed although the pool has room. */
  lemma RacingDropsLoseTheBuffer()
    ensures Run(Shared, [Check(0), Check(1), Decrement(0), Decrement(1)]) == Empty(1).(nextAlloc := 1, nextId := 2)
  {
    hide Next;
    var race := [Check(0), Check(1), Decrement(0), Decrement(1)];
    assert race[..3] == [Check(0), Check(1), Decrement(0)] && race[..3][..2] == [Check(0), Check(1)];
    assert race[..3][..2][..1] == [Check(0)] && race[..3][..2][..1][..0] == [];
    assert Run(Shared, [Check(0)]) == Next(Shared, Check(0));
    assert Run(Shared, race[..3][..2]) == Next(Next(Shared, Check(0)), Check(1));
    assert Run(Shared, race[..3]) == Next(Next(Next(Shared, Check(0)), Check(1)), Decrement(0));
    RaceSteps();
  }

  // ---- The pool object, one call at a time ----

  /** `release` in one piece. */
  function Released(s: Pool, h: Id): Pool
    requires h in s.handles
  {
    var a := s.handles[h].a;
    if |s.idle| < s.size then
      s.(idle := s.idle + [a], heap := s.heap[a := Cell([], 0)], handles := s.handles - {h})
    else
      s.(heap := s.heap - {a}, handles := s.handles - {h})
  }

  lemma ReleaseSteps(s: Pool, h: Id)
    requires Inv(s) && h in s.handles && s.handles[h].Unique?
    ensures s.handles[h].a in s.heap && s.heap[s.handles[h].a].refs == 1
    ensures Next(Next(s, Clear(h)), Push(h)) == Released(s, h) && Inv(Released(s, h))
  {
    NextKeepsInv(s, Clear(h));
    NextKeepsInv(Next(s, Clear(h)), Push(h));
    assert s.handles[h].a in s.heap && s.heap[s.handles[h].a].refs == 1;
    hide Inv;
    ClearThenPush(s, h);
  }

  lemma ClearThenPush(s: Pool, h: Id)
    requires h in s.handles && s.handles[h].Unique? && s.handles[h].a in s.heap && s.heap[s.handles[h].a].refs == 1
    ensures Next(Next(s, Clear(h)), Push(h)) == Released(s, h)
  {
    var a, t := s.handles[h].a, Next(s, Clear(h));
    assert t.handles[h] == Cleared(a) && t.heap == s.heap[a := Cell([], 1)] && t.idle == s.idle && t.size == s.size;
    assert t.handles - {h} == s.handles - {h};
    assert t.heap - {a} == s.heap - {a};
    assert t.heap[a := Cell([], 0)] == s.heap[a := Cell([], 0)];
  }

  /** A drop that is not the last one only takes its reference away. */
  lemma SharedDropSteps(s: Pool, h: Id)
    requires Inv(s) && h in s.handles && s.handles[h].Frozen? && s.heap[s.handles[h].a].refs != 1
    ensures s.heap[s.handles[h].a].refs >= 2
    ensures Next(Next(s, Check(h)), Decrement(h)) == Lose(s, h) && Inv(Lose(s, h))
  {
    OwnerCounts(s, h);
    LoseKeeps(s, h);
    hide Inv;
    assert Next(s, Check(h)).handles - {h} == s.handles - {h};
  }

  lemma CheckKeeps(s: Pool, h: Id)
    requires Inv(s) && h in s.handles && s.handles[h].Frozen?
    ensures s.handles[h].a in s.heap
    ensures s.heap[s.handles[h].a].refs == 1 ==> Inv(Retag(s, h, Unique(s.handles[h].a)))
  {
    if s.heap[s.handles[h].a].refs == 1 {
      RetagKeeps(s, h, Unique(s.handles[h].a));
    }
  }

  /** A whole drop, check and consequence, with nothing in between. */
  function Dropped(s: Pool, h: Id): Pool
    requires h in s.handles
  {
    var a := s.handles[h].a;
    if a in s.heap && s.heap[a].refs == 1 then Released(Retag(s, h, Unique(a)), h) else Lose(s, h)
  }

  /** Uninterrupted, a drop returns the buffer exactly if its owner was the last and the pool has room. */
  lemma DropOutcome(s: Pool, h: Id)
    requires Inv(s) && h in s.handles && s.handles[h].Frozen?
    ensures Inv(Dropped(s, h)) && Dropped(s, h).handles == s.handles - {h}
    ensures Dropped(s, h).idle ==
      if Count(s.handles, s.handles[h].a) == 1 && |s.idle| < s.size then s.idle + [s.handles[h].a] else s.idle
  {
    var a := s.handles[h].a;
    assert s.heap[a].refs == Count(s.handles, a);
    if s.heap[a].refs == 1 {
      CheckKeeps(s, h);
      hide Inv, Count;
      ReleaseSteps(Retag(s, h, Unique(a)), h);
      assert Retag(s, h, Unique(a)).handles - {h} == s.handles - {h};
    } else {
      LoseKeeps(s, h);
    }
  }

  /** What `acquire` promises: an empty buffer nobody else holds, the most recently returned one if any. */
  lemma AcquireGives(s: Pool)
    requires Inv(s)
    ensures var t, h := Next(s, Acquire), s.nextId;
      && h !in s.handles && h in t.handles && t.handles[h].Mutable? && Contents(t, t.handles[h].a) == []
      && (if s.idle == [] then t.idle == [] && t.handles[h].a !in s.heap
          else t.idle + [t.handles[h].a] == s.idle)
  {
  }

  class Pooling {
    var pool: Pool

    constructor (size: nat)
      ensures pool == Empty(size)
    {
      pool := Empty(size);
    }

    method AcquireBuffer() returns (h: Id)
      requires Inv(pool)
      modifies this
      ensures pool == Next(old(pool), Acquire) && Inv(pool) && h == old(pool).nextId
    {
      NextKeepsInv(pool, Acquire);
      var n := |pool.idle|;
      assert n > 0 ==> pool.idle[n - 1] in pool.heap;
      hide Inv;
      var a := if n > 0 then pool.idle[n - 1] else pool.nextAlloc;
      if n > 0 {
        pool := pool.(idle := pool.idle[..n - 1]);
      } else {
        pool := pool.(heap := pool.heap[a := Cell([], 0)], nextAlloc := a + 1);
      }
      h := pool.nextId;
      pool := pool.(heap := pool.heap[a := pool.heap[a].(refs := pool.heap[a].refs + 1)],
                    handles := pool.handles[h := Mutable(a)], nextId := h + 1);
    }

    /** Clear the buffer, then keep it if the pool has room. */
    method Release(h: Id)
      requires Inv(pool) && h in pool.handles && pool.handles[h].Unique?
      modifies this
      ensures pool == Next(Next(old(pool), Clear(h)), Push(h)) && pool == Released(old(pool), h) && Inv(pool)
    {
      ReleaseSteps(pool, h);
      hide Inv, Next;
      var a := pool.handles[h].a;
      pool := pool.(handles := pool.handles - {h});
      if |pool.idle| < pool.size {
        pool := pool.(idle := pool.idle + [a], heap := pool.heap[a := Cell([], 0)]);
      } else {
        pool := pool.(heap := pool.heap - {a});
      }
    }

    /** `Drop for PooledBytes`, run without interruption: only the last owner gives the buffer back. */
    method Drop(h: Id)
      requires Inv(pool) && h in pool.handles && pool.handles[h].Frozen?
      modifies this
      ensures pool == Dropped(old(pool), h) && Inv(pool)
    {
      DropOutcome(pool, h);
      CheckKeeps(pool, h);
      var a := pool.handles[h].a;
      hide Inv, Count, Next;
      if pool.heap[a].refs == 1 {
        pool := pool.(handles := pool.handles[h := Unique(a)]);
        Release(h);
      } else {
        SharedDropSteps(pool, h);
        var cell := pool.heap[a];
        pool := pool.(heap := pool.heap[a := cell.(refs := cell.refs - 1)], handles := pool.handles - {h});
      }
    }
  }
}
