/**
 The recording push broker (src/background_push.rs): registrations, a bounded queue of generic hints, claims
 and retries. Each method runs under one lock, so a run is a sequence of whole calls.
 */
module PushBroker {
  import opened Basics

  datatype Handle = Handle(nonce: nat, grant: nat)
  datatype Hint = Hint(count: nat, expiresAt: nat)
  datatype Delivery = Delivery(id: nat, registration: Handle, hint: Hint, attempts: nat)

  const MAX_PENDING_HINTS: nat := 64
  const MAX_DELIVERY_ATTEMPTS: nat := 3
  const U128_MAX: nat := 0xFFFF_FFFF_FFFF_FFFF_FFFF_FFFF_FFFF_FFFF

  /** A queued item carries the attempts already made. */
  datatype Broker = Broker(nonce: nat, deliveryId: nat, registrations: set<Handle>, queue: seq<Delivery>)

  const Fresh: Broker := Broker(0, 0, {}, [])

  datatype Op =
    | Register(grant: nat)
    | Revoke(handle: Handle)
    | Enqueue(handle: Handle, hint: Hint, now: nat)
    | Next(now: nat)
    | Retry(delivery: Delivery, now: nat)

  predicate Expired(h: Hint, now: nat) { now >= h.expiresAt }

  predicate Dead(b: Broker, d: Delivery, now: nat) { Expired(d.hint, now) || d.registration !in b.registrations }

  function Without(queue: seq<Delivery>, h: Handle): seq<Delivery> {
    if queue == [] then []
    else
      var rest := Without(queue[..|queue| - 1], h);
      if queue[|queue| - 1].registration == h then rest else rest + [queue[|queue| - 1]]
  }

  /** Drop dead items from the front. */
  function Alive(b: Broker, queue: seq<Delivery>, now: nat): seq<Delivery> {
    if queue != [] && Dead(b, queue[0], now) then Alive(b, queue[1..], now) else queue
  }

  /** The claim `next` makes, if any. */
  function Claim(b: Broker, now: nat): Option<Delivery> {
    var live := Alive(b, b.queue, now);
    if live == [] then None else Some(live[0].(attempts := live[0].attempts + 1))
  }

  predicate EnqueueAccepts(b: Broker, h: Handle, hint: Hint, now: nat) {
    h in b.registrations && !Expired(hint, now) && |b.queue| < MAX_PENDING_HINTS
  }

  datatype EnqueueResult = Queued | RejectedRevoked | RejectedExpired | RejectedFull

  /** The first test that fails names the rejection. */
  function EnqueueAnswer(b: Broker, h: Handle, hint: Hint, now: nat): EnqueueResult {
    if h !in b.registrations then RejectedRevoked
    else if Expired(hint, now) then RejectedExpired
    else if |b.queue| >= MAX_PENDING_HINTS then RejectedFull
    else Queued
  }

  predicate RetryAccepts(b: Broker, d: Delivery, now: nat) {
    d.attempts < MAX_DELIVERY_ATTEMPTS && !Dead(b, d, now) && |b.queue| < MAX_PENDING_HINTS
  }

  function Issued(b: Broker, grant: nat): Handle { Handle(SaturatingSucc(b.nonce, U128_MAX), grant) }

  function Step(b: Broker, op: Op): Broker {
    match op
    case Register(grant) =>
      b.(nonce := Issued(b, grant).nonce, registrations := b.registrations + {Issued(b, grant)})
    case Revoke(h) => b.(registrations := b.registrations - {h}, queue := Without(b.queue, h))
    case Enqueue(h, hint, now) =>
      if !EnqueueAccepts(b, h, hint, now) then b
      else
        var id := SaturatingSucc(b.deliveryId, U64_MAX);
        b.(deliveryId := id, queue := b.queue + [Delivery(id, h, hint, 0)])
    case Next(now) =>
      var live := Alive(b, b.queue, now);
      b.(queue := if live == [] then [] else live[1..])
    case Retry(d, now) => if RetryAccepts(b, d, now) then b.(queue := b.queue + [d]) else b
  }

  function Run(b: Broker, ops: seq<Op>): Broker {
    if ops == [] then b else Step(Run(b, ops[..|ops| - 1]), ops[|ops| - 1])
  }

  // ---- What every run keeps ----

  ghost predicate Inv(b: Broker) {
    && |b.queue| <= MAX_PENDING_HINTS
    && (forall i | 0 <= i < |b.queue| ::
          b.queue[i].registration in b.registrations && b.queue[i].attempts < MAX_DELIVERY_ATTEMPTS)
    && (forall h | h in b.registrations :: h.nonce <= b.nonce)
  }

  lemma {:induction false} WithoutHas(queue: seq<Delivery>, h: Handle, d: Delivery)
    ensures d in Without(queue, h) <==> d in queue && d.registration != h
    ensures |Without(queue, h)| <= |queue|
  {
    if queue != [] {
      WithoutHas(queue[..|queue| - 1], h, d);
      assert queue == queue[..|queue| - 1] + [queue[|queue| - 1]];
    }
  }

  lemma {:induction false} AliveIsSuffix(b: Broker, queue: seq<Delivery>, now: nat)
    ensures |Alive(b, queue, now)| <= |queue|
    ensures Alive(b, queue, now) == queue[|queue| - |Alive(b, queue, now)|..]
    ensures Alive(b, queue, now) != [] ==> !Dead(b, Alive(b, queue, now)[0], now)
  {
    if queue != [] && Dead(b, queue[0], now) {
      AliveIsSuffix(b, queue[1..], now);
    }
  }

  /** No registration of its own any more, or past its time. */
  predicate Undeliverable(b: Broker, d: Delivery, now: nat) {
    d.hint.expiresAt <= now || d.registration !in b.registrations
  }

  lemma {:induction false} AliveStarts(b: Broker, queue: seq<Delivery>, now: nat, k: nat)
    requires k <= |queue| && (forall i | 0 <= i < k :: Undeliverable(b, queue[i], now))
    requires k < |queue| ==> !Undeliverable(b, queue[k], now)
    ensures Alive(b, queue, now) == queue[k..]
  {
    if k > 0 {
      AliveStarts(b, queue[1..], now, k - 1);
    }
  }

  /**
   `next` claims the first queued item that can be delivered, if there is one, and keeps exactly the items behind
   it; the undeliverable ones before it are gone.
   */
  lemma NextIs(b: Broker, now: nat, k: nat)
    requires k <= |b.queue| && (forall i | 0 <= i < k :: Undeliverable(b, b.queue[i], now))
    requires k < |b.queue| ==> !Undeliverable(b, b.queue[k], now)
    ensures var next := Step(b, Next(now));
      && Claim(b, now) == (if k < |b.queue| then Some(b.queue[k].(attempts := b.queue[k].attempts + 1)) else None)
      && next == b.(queue := if k < |b.queue| then b.queue[k + 1..] else [])
  {
    AliveStarts(b, b.queue, now, k);
    hide Alive;
  }

  /** A hint or a retry goes to the end of the queue, exactly if it can still be delivered and there is room. */
  lemma QueuedIs(b: Broker, h: Handle, hint: Hint, d: Delivery, now: nat)
    ensures var queued := h in b.registrations && now < hint.expiresAt && |b.queue| < 64;
      && (EnqueueAnswer(b, h, hint, now) == Queued <==> queued)
      && (!queued ==> Step(b, Enqueue(h, hint, now)) == b)
      && (queued && b.deliveryId < U64_MAX ==>
            var id := b.deliveryId + 1;
            Step(b, Enqueue(h, hint, now)) == b.(deliveryId := id, queue := b.queue + [Delivery(id, h, hint, 0)]))
    ensures var requeued := d.attempts < 3 && !Undeliverable(b, d, now) && |b.queue| < 64;
      && (RetryAccepts(b, d, now) <==> requeued)
      && Step(b, Retry(d, now)) == if requeued then b.(queue := b.queue + [d]) else b
  {
  }

  /** Among the hints not yet delivered, the queue keeps the order in which they were accepted. */
  ghost predicate InOrder(b: Broker) {
    && (forall i, j | 0 <= i < j < |b.queue| && b.queue[i].attempts == 0 && b.queue[j].attempts == 0 ::
          b.queue[i].id < b.queue[j].id)
    && (forall i | 0 <= i < |b.queue| && b.queue[i].attempts == 0 :: b.queue[i].id <= b.deliveryId)
  }

  lemma {:induction false} WithoutInOrder(b: Broker, queue: seq<Delivery>, h: Handle)
    requires InOrder(b.(queue := queue))
    ensures InOrder(b.(queue := Without(queue, h)))
  {
    if queue != [] {
      var n := |queue| - 1;
      WithoutInOrder(b, queue[..n], h);
      var kept, last := Without(queue[..n], h), queue[n];
      forall i | 0 <= i < |kept| && kept[i].attempts == 0 && last.attempts == 0
        ensures kept[i].id < last.id
      {
        WithoutHas(queue[..n], h, kept[i]);
        var m :| 0 <= m < n && queue[..n][m] == kept[i];
        assert queue[m] == kept[i];
      }
    }
  }

  lemma StepInOrder(b: Broker, op: Op)
    requires InOrder(b) && b.deliveryId < U64_MAX && (op.Retry? ==> op.delivery.attempts > 0)
    ensures InOrder(Step(b, op)) && Step(b, op).deliveryId <= b.deliveryId + 1
  {
    match op {
      case Revoke(h) => WithoutInOrder(b, b.queue, h);
      case Next(now) => AliveIsSuffix(b, b.queue, now);
      case _ =>
    }
    hide Alive, Without;
  }

  /** First deliveries are in the order of acceptance, in every run that retries only what was claimed. */
  lemma {:induction false} FirstDeliveriesInOrder(ops: seq<Op>)
    requires |ops| < U64_MAX && forall i | 0 <= i < |ops| && ops[i].Retry? :: ops[i].delivery.attempts > 0
    ensures InOrder(Run(Fresh, ops)) && Run(Fresh, ops).deliveryId <= |ops|
  {
    if ops != [] {
      FirstDeliveriesInOrder(ops[..|ops| - 1]);
      StepInOrder(Run(Fresh, ops[..|ops| - 1]), ops[|ops| - 1]);
      hide Step, InOrder;
    }
  }

  lemma StepKeepsInv(b: Broker, op: Op)
    requires Inv(b) && b.nonce < U128_MAX
    ensures Inv(Step(b, op))
  {
    match op {
      case Revoke(h) =>
        forall d | d in Without(b.queue, h)
          ensures d in b.queue && d.registration != h
        {
          WithoutHas(b.queue, h, d);
        }
        WithoutHas(b.queue, h, Delivery(0, h, Hint(0, 0), 0));
        var kept := Without(b.queue, h);
        forall i | 0 <= i < |kept|
          ensures kept[i].registration in b.registrations - {h} && kept[i].attempts < MAX_DELIVERY_ATTEMPTS
        {
          assert kept[i] in kept;
        }
      case Next(now) => AliveIsSuffix(b, b.queue, now);
      case _ =>
    }
  }

  lemma {:induction false} NonceCounts(ops: seq<Op>)
    requires |ops| < U128_MAX
    ensures Run(Fresh, ops).nonce <= |ops|
  {
    if ops != [] {
      NonceCounts(ops[..|ops| - 1]);
    }
  }

  /** The queue stays within 64, holds only registered handles, and no item that used up its attempts. */
  lemma {:induction false} RunKeepsInv(ops: seq<Op>)
    requires |ops| < U128_MAX
    ensures Inv(Run(Fresh, ops))
  {
    if ops != [] {
      RunKeepsInv(ops[..|ops| - 1]);
      NonceCounts(ops[..|ops| - 1]);
      StepKeepsInv(Run(Fresh, ops[..|ops| - 1]), ops[|ops| - 1]);
    }
  }

  // ---- Revocation is final ----

  /** The handle was issued, is no longer registered, and has nothing queued. */
  ghost predicate Gone(b: Broker, h: Handle) {
    && h.nonce <= b.nonce && h !in b.registrations
    && forall i | 0 <= i < |b.queue| :: b.queue[i].registration != h
  }

  lemma RevokedIsGone(b: Broker, h: Handle)
    requires Inv(b) && h in b.registrations
    ensures Gone(Step(b, Revoke(h)), h)
  {
    var kept := Without(b.queue, h);
    forall i | 0 <= i < |kept|
      ensures kept[i].registration != h
    {
      WithoutHas(b.queue, h, kept[i]);
    }
  }

  lemma GoneStep(b: Broker, op: Op, h: Handle)
    requires Gone(b, h) && b.nonce < U128_MAX
    ensures Gone(Step(b, op), h)
    ensures op.Next? && Claim(b, op.now).Some? ==> Claim(b, op.now).value.registration != h
    ensures op.Enqueue? && op.handle == h ==> !EnqueueAccepts(b, op.handle, op.hint, op.now)
    ensures op.Retry? && op.delivery.registration == h ==> !RetryAccepts(b, op.delivery, op.now)
  {
    match op {
      case Revoke(g) =>
        var kept := Without(b.queue, g);
        forall i | 0 <= i < |kept|
          ensures kept[i].registration != h
        {
          WithoutHas(b.queue, g, kept[i]);
        }
      case Next(now) => AliveIsSuffix(b, b.queue, now);
      case _ =>
    }
  }

  lemma {:induction false} GoneRun(b: Broker, ops: seq<Op>, h: Handle)
    requires Gone(b, h) && b.nonce + |ops| < U128_MAX
    ensures Gone(Run(b, ops), h) && Run(b, ops).nonce <= b.nonce + |ops|
  {
    if ops != [] {
      GoneRun(b, ops[..|ops| - 1], h);
      GoneStep(Run(b, ops[..|ops| - 1]), ops[|ops| - 1], h);
    }
  }

  /**
   After a registration is revoked, no later call of any kind delivers, queues or requeues a hint for it,
   not even a retry of a delivery claimed before: handles are never issued twice.
   */
  lemma RevocationIsFinal(before: seq<Op>, h: Handle, after: seq<Op>, op: Op)
    requires |before| + |after| + 1 < U128_MAX && h in Run(Fresh, before).registrations
    ensures var b := Run(Step(Run(Fresh, before), Revoke(h)), after);
      && h !in b.registrations && Gone(Step(b, op), h)
      && (op.Next? && Claim(b, op.now).Some? ==> Claim(b, op.now).value.registration != h)
      && (op.Enqueue? && op.handle == h ==> !EnqueueAccepts(b, op.handle, op.hint, op.now))
      && (op.Retry? && op.delivery.registration == h ==> !RetryAccepts(b, op.delivery, op.now))
  {
    RunKeepsInv(before);
    NonceCounts(before);
    RevokedIsGone(Run(Fresh, before), h);
    var revoked := Step(Run(Fresh, before), Revoke(h));
    assert revoked.nonce <= |before|;
    hide Run, Step, Gone;
    GoneRun(revoked, after, h);
    GoneStep(Run(revoked, after), op, h);
  }

  // ---- Each hint is delivered at most three times ----

  /** A run whose caller retries only what it claimed; `claims` lists the claims, `spent` their accepted retries. */
  datatype Session = Session(broker: Broker, claims: seq<Delivery>, spent: multiset<nat>)

  datatype Act = Call(op: Op) | RetryClaim(claim: nat, now: nat)

  /** Each claim is retried successfully at most `k` times. */
  predicate Disciplined(s: Session, a: Act, k: nat) {
    match a
    case Call(op) => !op.Retry?
    case RetryClaim(i, _) => i < |s.claims| && s.spent[i] < k
  }

  function Perform(s: Session, a: Act): Session {
    match a
    case Call(op) =>
      Session(Step(s.broker, op),
              if op.Next? && Claim(s.broker, op.now).Some?
              then s.claims + [Claim(s.broker, op.now).value] else s.claims,
              s.spent)
    case RetryClaim(i, now) =>
      if i >= |s.claims| then s
      else
        s.(broker := Step(s.broker, Retry(s.claims[i], now)),
           spent := if RetryAccepts(s.broker, s.claims[i], now) then s.spent + multiset{i} else s.spent)
  }

  function Conduct(acts: seq<Act>): Session {
    if acts == [] then Session(Fresh, [], multiset{}) else Perform(Conduct(acts[..|acts| - 1]), acts[|acts| - 1])
  }

  /** How often hint `id` has been claimed. */
  function Claims(claims: seq<Delivery>, id: nat): nat {
    if claims == [] then 0 else Claims(claims[..|claims| - 1], id) + if claims[|claims| - 1].id == id then 1 else 0
  }

  /** A hint is queued at most once, with as many attempts as it has been claimed. */
  ghost predicate QueueTokens(queue: seq<Delivery>, claims: seq<Delivery>, last: nat) {
    && (forall i | 0 <= i < |queue| ::
          queue[i].id <= last && queue[i].attempts == Claims(claims, queue[i].id) < MAX_DELIVERY_ATTEMPTS)
    && (forall i, j | 0 <= i < j < |queue| :: queue[i].id != queue[j].id)
  }

  /** A claim not yet retried has as many attempts as its hint has claims, and is not queued. */
  ghost predicate ClaimTokens(queue: seq<Delivery>, claims: seq<Delivery>, spent: multiset<nat>, last: nat) {
    && (forall i | 0 <= i < |claims| && i !in spent ::
          claims[i].id <= last && claims[i].attempts == Claims(claims, claims[i].id))
    && (forall i, j | 0 <= i < |claims| && i !in spent && 0 <= j < |queue| :: claims[i].id != queue[j].id)
  }

  /** Of two claims of a hint at most one is not yet retried. */
  ghost predicate SingleClaims(claims: seq<Delivery>, spent: multiset<nat>) {
    && (forall i, j | 0 <= i < j < |claims| && i !in spent && j !in spent :: claims[i].id != claims[j].id)
    && (forall i | i in spent :: i < |claims|)
  }

  ghost predicate Bounded(claims: seq<Delivery>, last: nat) {
    && (forall id :: Claims(claims, id) <= MAX_DELIVERY_ATTEMPTS)
    && (forall id | id > last :: Claims(claims, id) == 0)
  }

  ghost predicate Tokens(s: Session) {
    && QueueTokens(s.broker.queue, s.claims, s.broker.deliveryId)
    && ClaimTokens(s.broker.queue, s.claims, s.spent, s.broker.deliveryId)
    && SingleClaims(s.claims, s.spent) && Bounded(s.claims, s.broker.deliveryId)
  }

  lemma ClaimsSnoc(claims: seq<Delivery>, d: Delivery, id: nat)
    ensures Claims(claims + [d], id) == Claims(claims, id) + if d.id == id then 1 else 0
  {
    assert (claims + [d])[..|claims|] == claims;
  }

  /** Dropping queued items keeps the tokens of the others. */
  lemma ShrinkKeeps(s: Session, queue: seq<Delivery>, at: seq<nat>)
    requires Tokens(s) && |at| == |queue|
    requires forall i | 0 <= i < |queue| :: at[i] < |s.broker.queue| && queue[i] == s.broker.queue[at[i]]
    requires forall i, j | 0 <= i < j < |queue| :: at[i] < at[j]
    ensures Tokens(s.(broker := s.broker.(queue := queue)))
  {
    hide Claims, SingleClaims, Bounded;
  }

  lemma {:induction false} WithoutPositions(queue: seq<Delivery>, h: Handle) returns (at: seq<nat>)
    ensures |at| == |Without(queue, h)|
    ensures forall i | 0 <= i < |at| :: at[i] < |queue| && Without(queue, h)[i] == queue[at[i]]
    ensures forall i, j | 0 <= i < j < |at| :: at[i] < at[j]
  {
    if queue == [] {
      at := [];
    } else {
      var n := |queue| - 1;
      at := WithoutPositions(queue[..n], h);
      if queue[n].registration != h {
        at := at + [n];
      }
    }
  }

  lemma SuffixKeeps(s: Session, k: nat)
    requires Tokens(s) && k <= |s.broker.queue|
    ensures Tokens(s.(broker := s.broker.(queue := s.broker.queue[k..])))
  {
    hide Claims, SingleClaims, Bounded;
  }

  /** What the tokens say about one queued item. */
  lemma TokenAt(s: Session, k: nat)
    requires Tokens(s) && k < |s.broker.queue|
    ensures var d := s.broker.queue[k];
      && d.attempts == Claims(s.claims, d.id) < MAX_DELIVERY_ATTEMPTS && d.id <= s.broker.deliveryId
      && (forall j | k < j < |s.broker.queue| :: s.broker.queue[j].id != d.id)
      && (forall i | 0 <= i < |s.claims| && i !in s.spent :: s.claims[i].id != d.id)
  {
    hide Claims, SingleClaims, Bounded;
  }

  /** A hint without another trace may join the queue. */
  lemma PushKeeps(queue: seq<Delivery>, claims: seq<Delivery>, spent: multiset<nat>, last: nat, d: Delivery)
    requires QueueTokens(queue, claims, last) && ClaimTokens(queue, claims, spent, last)
    requires d.id <= last && d.attempts == Claims(claims, d.id) < MAX_DELIVERY_ATTEMPTS
    requires forall j | 0 <= j < |queue| :: queue[j].id != d.id
    requires forall i | 0 <= i < |claims| && i !in spent :: claims[i].id != d.id
    ensures QueueTokens(queue + [d], claims, last) && ClaimTokens(queue + [d], claims, spent, last)
  {
    hide Claims;
  }

  /** New hints leave the tokens of the old ones alone. */
  lemma LastGrows(queue: seq<Delivery>, claims: seq<Delivery>, spent: multiset<nat>, last: nat)
    requires QueueTokens(queue, claims, last) && ClaimTokens(queue, claims, spent, last) && Bounded(claims, last)
    ensures QueueTokens(queue, claims, last + 1) && ClaimTokens(queue, claims, spent, last + 1)
    ensures Bounded(claims, last + 1)
    ensures Claims(claims, last + 1) == 0
    ensures forall j | 0 <= j < |queue| :: queue[j].id != last + 1
    ensures forall i | 0 <= i < |claims| && i !in spent :: claims[i].id != last + 1
  {
    hide Claims;
  }

  /** A retried claim no longer counts as a trace of its hint. */
  lemma SpendKeeps(queue: seq<Delivery>, claims: seq<Delivery>, spent: multiset<nat>, last: nat, i: nat)
    requires ClaimTokens(queue, claims, spent, last) && SingleClaims(claims, spent) && i < |claims| && i !in spent
    ensures ClaimTokens(queue, claims, spent + multiset{i}, last) && SingleClaims(claims, spent + multiset{i})
    ensures forall j | 0 <= j < |queue| :: queue[j].id != claims[i].id
    ensures forall j | 0 <= j < |claims| && j !in spent + multiset{i} :: claims[j].id != claims[i].id
  {
    hide Claims;
    forall j | 0 <= j < |claims| && j !in spent + multiset{i}
      ensures claims[j].id != claims[i].id
    {
      assert j != i && j !in spent;
    }
  }

  /** Claiming hint `d.id` once more changes the count of that hint only. */
  lemma CountsAfterClaim(queue: seq<Delivery>, claims: seq<Delivery>, spent: multiset<nat>, last: nat, d: Delivery)
    requires QueueTokens(queue, claims, last) && ClaimTokens(queue, claims, spent, last) && Bounded(claims, last)
    requires d.id <= last && d.attempts == Claims(claims, d.id) + 1 <= MAX_DELIVERY_ATTEMPTS
    requires forall j | 0 <= j < |queue| :: queue[j].id != d.id
    requires forall i | 0 <= i < |claims| && i !in spent :: claims[i].id != d.id
    requires forall i | i in spent :: i < |claims|
    ensures QueueTokens(queue, claims + [d], last) && ClaimTokens(queue, claims + [d], spent, last)
    ensures Bounded(claims + [d], last)
  {
    hide Claims;
    forall id
      ensures Claims(claims + [d], id) == Claims(claims, id) + if d.id == id then 1 else 0
    {
      ClaimsSnoc(claims, d, id);
    }
    var more := claims + [d];
    forall i | 0 <= i < |more| && i !in spent
      ensures more[i].id <= last && more[i].attempts == Claims(more, more[i].id)
      ensures forall j | 0 <= j < |queue| :: more[i].id != queue[j].id
    {
      if i < |claims| {
        assert more[i] == claims[i];
      }
    }
  }

  lemma SingleAfterClaim(claims: seq<Delivery>, spent: multiset<nat>, d: Delivery)
    requires SingleClaims(claims, spent) && forall i | 0 <= i < |claims| && i !in spent :: claims[i].id != d.id
    ensures SingleClaims(claims + [d], spent)
  {
  }

  lemma NextKeepsTokens(s: Session, now: nat)
    requires Tokens(s)
    ensures Tokens(Perform(s, Call(Next(now))))
  {
    var b := s.broker;
    var live := Alive(b, b.queue, now);
    AliveIsSuffix(b, b.queue, now);
    hide Alive, Claims, QueueTokens, ClaimTokens, Bounded;
    var k := |b.queue| - |live|;
    if live == [] {
      SuffixKeeps(s, |b.queue|);
      assert b.queue[|b.queue|..] == [];
    } else {
      SuffixKeeps(s, k + 1);
      TokenAt(s, k);
      var d := live[0].(attempts := live[0].attempts + 1);
      assert live[1..] == b.queue[k + 1..] && live[0] == b.queue[k];
      CountsAfterClaim(live[1..], s.claims, s.spent, b.deliveryId, d);
      SingleAfterClaim(s.claims, s.spent, d);
    }
  }

  lemma EnqueueKeepsTokens(s: Session, h: Handle, hint: Hint, now: nat)
    requires Tokens(s) && s.broker.deliveryId < U64_MAX
    ensures Tokens(Perform(s, Call(Enqueue(h, hint, now))))
  {
    hide Claims, QueueTokens, ClaimTokens, Bounded, SingleClaims;
    var b, last := s.broker, s.broker.deliveryId;
    LastGrows(b.queue, s.claims, s.spent, last);
    PushKeeps(b.queue, s.claims, s.spent, last + 1, Delivery(last + 1, h, hint, 0));
  }

  /** An accepted retry turns an unspent claim back into a queued token. */
  lemma RetryKeepsTokens(s: Session, i: nat, now: nat)
    requires Tokens(s) && i < |s.claims| && i !in s.spent
    ensures Tokens(Perform(s, RetryClaim(i, now)))
  {
    var b, d := s.broker, s.claims[i];
    assert d.id <= b.deliveryId && d.attempts == Claims(s.claims, d.id);
    hide Claims, QueueTokens, ClaimTokens, Bounded, SingleClaims;
    if RetryAccepts(b, d, now) {
      SpendKeeps(b.queue, s.claims, s.spent, b.deliveryId, i);
      PushKeeps(b.queue, s.claims, s.spent + multiset{i}, b.deliveryId, d);
    }
  }

  lemma PerformKeepsTokens(s: Session, a: Act)
    requires Tokens(s) && s.broker.deliveryId < U64_MAX && Disciplined(s, a, 1)
    ensures Tokens(Perform(s, a))
  {
    hide QueueTokens, ClaimTokens, Bounded, SingleClaims;
    match a {
      case RetryClaim(i, now) => RetryKeepsTokens(s, i, now);
      case Call(op) =>
        match op {
          case Register(_) => assert Perform(s, a) == s.(broker := Step(s.broker, op));
          case Revoke(h) =>
            var at := WithoutPositions(s.broker.queue, h);
            ShrinkKeeps(s, Without(s.broker.queue, h), at);
          case Enqueue(h, hint, now) => EnqueueKeepsTokens(s, h, hint, now);
          case Next(now) => NextKeepsTokens(s, now);
        }
    }
  }

  /** Every act of the session is disciplined where it happens. */
  predicate AlwaysDisciplined(acts: seq<Act>, k: nat) {
    acts != [] ==>
      AlwaysDisciplined(acts[..|acts| - 1], k) && Disciplined(Conduct(acts[..|acts| - 1]), acts[|acts| - 1], k)
  }

  lemma {:induction false} DisciplineMonotone(acts: seq<Act>, k: nat, m: nat)
    requires AlwaysDisciplined(acts, k) && k <= m
    ensures AlwaysDisciplined(acts, m)
  {
    if acts != [] {
      DisciplineMonotone(acts[..|acts| - 1], k, m);
    }
  }

  lemma IdStep(s: Session, a: Act)
    ensures Perform(s, a).broker.deliveryId <= s.broker.deliveryId + 1
  {
  }

  lemma {:induction false} SessionTokens(acts: seq<Act>)
    requires AlwaysDisciplined(acts, 1) && |acts| < U64_MAX
    ensures Tokens(Conduct(acts)) && Conduct(acts).broker.deliveryId <= |acts|
  {
    if acts != [] {
      var n := |acts| - 1;
      SessionTokens(acts[..n]);
      IdStep(Conduct(acts[..n]), acts[n]);
      hide Tokens, Perform, Disciplined;
      PerformKeepsTokens(Conduct(acts[..n]), acts[n]);
    }
  }

  /** A hint whose claims are each retried at most once is delivered at most three times. */
  lemma DeliveredAtMostThrice(acts: seq<Act>, id: nat)
    requires AlwaysDisciplined(acts, 1) && |acts| < U64_MAX
    ensures Claims(Conduct(acts).claims, id) <= 3
  {
    SessionTokens(acts);
  }

  // One hint, its first claim retried twice and its second once.

  const ExampleHandle: Handle := Handle(1, 7)
  const ExampleHint: Hint := Hint(1, 1)
  const ExampleActs: seq<Act> := [
    Call(Register(7)), Call(Enqueue(ExampleHandle, ExampleHint, 0)), Call(Next(0)), RetryClaim(0, 0), RetryClaim(0, 0),
    Call(Next(0)), Call(Next(0)), RetryClaim(1, 0), Call(Next(0))]

  function ExampleDelivery(attempts: nat): Delivery { Delivery(1, ExampleHandle, ExampleHint, attempts) }

  function ExampleSession(n: nat): Session {
    var b, d1, d2 := Broker(1, 1, {ExampleHandle}, []), ExampleDelivery(1), ExampleDelivery(2);
    match n
    case 0 => Session(Fresh, [], multiset{})
    case 1 => Session(b.(deliveryId := 0), [], multiset{})
    case 2 => Session(b.(queue := [ExampleDelivery(0)]), [], multiset{})
    case 3 => Session(b, [d1], multiset{})
    case 4 => Session(b.(queue := [d1]), [d1], multiset{0})
    case 5 => Session(b.(queue := [d1, d1]), [d1], multiset{0, 0})
    case 6 => Session(b.(queue := [d1]), [d1, d2], multiset{0, 0})
    case 7 => Session(b, [d1, d2, d2], multiset{0, 0})
    case 8 => Session(b.(queue := [d2]), [d1, d2, d2], multiset{0, 0, 1})
    case _ => Session(b, [d1, d2, d2, ExampleDelivery(3)], multiset{0, 0, 1})
  }

  /** The calls of the example, each from the state before it. */
  lemma ExampleStep(n: nat)
    requires n < |ExampleActs|
    ensures Perform(ExampleSession(n), ExampleActs[n]) == ExampleSession(n + 1)
    ensures Disciplined(ExampleSession(n), ExampleActs[n], 2)
  {
    if n == 2 || n == 5 || n == 6 || n == 8 {
      ExampleClaim(n);
    } else if n == 3 || n == 4 || n == 7 {
      ExampleRetry(n);
    } else {
      assert ExampleSession(1).broker.registrations == {ExampleHandle};
    }
  }

  lemma ExampleClaim(n: nat)
    requires n == 2 || n == 5 || n == 6 || n == 8
    ensures Perform(ExampleSession(n), Call(Next(0))) == ExampleSession(n + 1)
  {
    var b := ExampleSession(n).broker;
    assert !Dead(b, b.queue[0], 0);
    assert Alive(b, b.queue, 0) == b.queue;
    hide Alive;
  }

  lemma ExampleRetry(n: nat)
    requires n == 3 || n == 4 || n == 7
    ensures Perform(ExampleSession(n), RetryClaim(if n == 7 then 1 else 0, 0)) == ExampleSession(n + 1)
    ensures Disciplined(ExampleSession(n), RetryClaim(if n == 7 then 1 else 0, 0), 2)
  {
  }

  lemma ConductPrefix(acts: seq<Act>, n: nat, k: nat)
    requires n < |acts|
    ensures Conduct(acts[..n + 1]) == Perform(Conduct(acts[..n]), acts[n])
    ensures AlwaysDisciplined(acts[..n + 1], k) <==>
      AlwaysDisciplined(acts[..n], k) && Disciplined(Conduct(acts[..n]), acts[n], k)
  {
    hide Perform, Disciplined;
    assert acts[..n + 1][..n] == acts[..n];
  }

  lemma {:induction false} ExampleRun(n: nat)
    requires n <= |ExampleActs|
    ensures Conduct(ExampleActs[..n]) == ExampleSession(n) && AlwaysDisciplined(ExampleActs[..n], 2)
  {
    hide Perform, Disciplined;
    if n > 0 {
      ExampleRun(n - 1);
      ExampleStep(n - 1);
      ConductPrefix(ExampleActs, n - 1, 2);
      hide Conduct, AlwaysDisciplined, ExampleSession;
    }
  }

  lemma ExampleCount()
    ensures Claims(ExampleSession(9).claims, 1) == 4
  {
    var d1, d2, d3 := ExampleDelivery(1), ExampleDelivery(2), ExampleDelivery(3);
    ClaimsSnoc([], d1, 1);
    ClaimsSnoc([d1], d2, 1);
    ClaimsSnoc([d1, d2], d2, 1);
    ClaimsSnoc([d1, d2, d2], d3, 1);
    assert [] + [d1] == [d1] && [d1] + [d2] == [d1, d2] && [d1, d2] + [d2] == [d1, d2, d2];
    assert [d1, d2, d2] + [d3] == [d1, d2, d2, d3];
    assert Claims([], 1) == 0;
    hide Claims;
  }

  /** A fourth delivery: nine calls from a new broker, no claim retried more than twice. */
  lemma FourthDelivery()
    ensures AlwaysDisciplined(ExampleActs, 2) && Claims(Conduct(ExampleActs).claims, 1) == 4
  {
    ExampleRun(9);
    ExampleCount();
    hide Conduct, AlwaysDisciplined, ExampleSession, Claims;
    assert ExampleActs[..9] == ExampleActs;
  }

  /**
   Retries are documented to be bounded by three attempts. With at most `k` accepted retries per claim every
   hint of every session is delivered at most three times exactly if `k` is at most one.
   */
  lemma AtMostThriceIff(k: nat)
    ensures k <= 1 <==> forall acts: seq<Act>, id: nat | AlwaysDisciplined(acts, k) && |acts| < U64_MAX ::
      Claims(Conduct(acts).claims, id) <= MAX_DELIVERY_ATTEMPTS
  {
    if k <= 1 {
      forall acts: seq<Act>, id: nat | AlwaysDisciplined(acts, k) && |acts| < U64_MAX
        ensures Claims(Conduct(acts).claims, id) <= MAX_DELIVERY_ATTEMPTS
      {
        DisciplineMonotone(acts, k, 1);
        DeliveredAtMostThrice(acts, id);
      }
    } else {
      FourthDelivery();
      DisciplineMonotone(ExampleActs, 2, k);
      hide Claims, Conduct, AlwaysDisciplined;
    }
  }

  class RecordingNotificationSink {
    var nonce: nat
    var deliveryId: nat
    var registrations: set<Handle>
    var queue: seq<Delivery>

    function View(): Broker
      reads this
    {
      Broker(nonce, deliveryId, registrations, queue)
    }

    constructor ()
      ensures View() == Fresh
    {
      nonce, deliveryId, registrations, queue := 0, 0, {}, [];
    }

    method RegisterGrant(grant: nat) returns (h: Handle)
      modifies this
      ensures View() == Step(old(View()), Register(grant)) && h == Issued(old(View()), grant)
      ensures Inv(old(View())) && old(nonce) < U128_MAX ==> h !in old(registrations)
    {
      nonce := SaturatingSucc(nonce, U128_MAX);
      h := Handle(nonce, grant);
      registrations := registrations + {h};
    }

    method RevokeHandle(h: Handle) returns (removed: bool)
      modifies this
      ensures View() == Step(old(View()), Revoke(h)) && removed == (h in old(registrations))
    {
      removed := h in registrations;
      registrations := registrations - {h};
      var kept: seq<Delivery> := [];
      for i := 0 to |queue|
        invariant kept == Without(queue[..i], h)
      {
        assert queue[..i + 1][..i] == queue[..i];
        if queue[i].registration != h {
          kept := kept + [queue[i]];
        }
      }
      assert queue[..|queue|] == queue;
      queue := kept;
    }

    method EnqueueHint(h: Handle, hint: Hint, now: nat) returns (r: EnqueueResult)
      modifies this
      ensures View() == Step(old(View()), Enqueue(h, hint, now)) && r == EnqueueAnswer(old(View()), h, hint, now)
      ensures r == Queued <==> EnqueueAccepts(old(View()), h, hint, now)
    {
      if h !in registrations {
        return RejectedRevoked;
      }
      if Expired(hint, now) {
        return RejectedExpired;
      }
      if |queue| >= MAX_PENDING_HINTS {
        return RejectedFull;
      }
      deliveryId := SaturatingSucc(deliveryId, U64_MAX);
      queue := queue + [Delivery(deliveryId, h, hint, 0)];
      r := Queued;
    }

    /** The pop loop skips expired and revoked items; what it returns is neither. */
    method NextDelivery(now: nat) returns (r: Option<Delivery>)
      modifies this`queue
      ensures View() == Step(old(View()), Next(now)) && r == Claim(old(View()), now)
      ensures r.Some? ==> !Expired(r.value.hint, now) && r.value.registration in registrations
    {
      ghost var b := View();
      AliveIsSuffix(b, queue, now);
      while |queue| > 0
        invariant Alive(b, queue, now) == Alive(b, b.queue, now)
      {
        var item := queue[0];
        queue := queue[1..];
        if Expired(item.hint, now) || item.registration !in registrations {
          continue;
        }
        return Some(item.(attempts := item.attempts + 1));
      }
      r := None;
    }

    method RetryDelivery(d: Delivery, now: nat) returns (accepted: bool)
      modifies this
      ensures View() == Step(old(View()), Retry(d, now)) && accepted == RetryAccepts(old(View()), d, now)
    {
      if d.attempts >= MAX_DELIVERY_ATTEMPTS || Expired(d.hint, now) || d.registration !in registrations
        || |queue| >= MAX_PENDING_HINTS
      {
        return false;
      }
      queue := queue + [d];
      accepted := true;
    }
  }
}
