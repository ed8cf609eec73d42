/**
 Outgoing delivery facts and the in-memory history store (src/chat_history.rs): the delivery reducer under
 arbitrary event orders, stable event ids, and the backward scan for recent messages.
 */
module ChatHistory {
  import opened Basics

  // ---- The delivery reducer ----

  datatype Phase = Queued | Sending | Delivered | Failed
  datatype Reason = Initial | Retried | Offline | AwaitingWorker | LegacyUnknown

  datatype Facts = Facts(
    phase: Phase,
    reason: Reason,
    generation: nat,
    attempt: Option<nat>,
    awaitingAck: bool,
    published: bool,
    read: bool,
    failure: Option<string>)

  const Default: Facts := Facts(Queued, Initial, 0, None, false, false, false, None)

  datatype Event =
    | StartAttempt(generation: nat)
    | Published(generation: nat)
    | Timeout(generation: nat)
    | Fail(generation: nat, code: string)
    | Receipt(generation: nat)
    | Read(generation: nat)
    | Retry(generation: nat, reason: Reason)
  {
    predicate Ack() { Receipt? || Read? }
    predicate Failure() { Timeout? || Fail? }
    function Code(): string { if Fail? then code else "timeout" }
  }

  /** A failure is ignored once the message is delivered or read. */
  predicate Settled(f: Facts) { f.read || f.phase == Delivered }

  predicate Accepts(f: Facts, e: Event) {
    e.generation >= f.generation && (e.Failure() ==> !Settled(f))
  }

  function Reduce(f: Facts, e: Event): Facts {
    if !Accepts(f, e) then f else
    match e
    case Receipt(g) => f.(generation := g, phase := Delivered, published := true, awaitingAck := false)
    case Read(g) => f.(generation := g, phase := Delivered, published := true, awaitingAck := false, read := true)
    case StartAttempt(g) =>
      f.(generation := g, attempt := Some(g), phase := Sending, awaitingAck := true, failure := None)
    case Published(g) => f.(generation := g, phase := Sending, published := true, awaitingAck := true)
    case Timeout(g) => f.(generation := g, phase := Failed, awaitingAck := false, failure := Some("timeout"))
    case Fail(g, code) => f.(generation := g, phase := Failed, awaitingAck := false, failure := Some(code))
    case Retry(g, reason) =>
      f.(generation := g, phase := Queued, reason := reason, attempt := None, awaitingAck := false)
  }

  function Run(f: Facts, es: seq<Event>): Facts {
    if es == [] then f else Reduce(Run(f, es[..|es| - 1]), es[|es| - 1])
  }

  /** Label shown by every frontend. */
  function Label(f: Facts): string {
    match f.phase
    case Queued => "Sending"
    case Sending => if f.published then "Sent" else "Sending"
    case Delivered => if f.read then "Read" else "Delivered"
    case Failed => "Failed"
  }

  /** An acknowledgement is awaited exactly while sending, a read message is published and never failed. */
  predicate FactsInv(f: Facts) {
    && (f.awaitingAck <==> f.phase == Sending)
    && (f.read ==> f.phase != Failed && f.published)
    && (f.phase == Delivered ==> f.published)
  }

  /** Generation, publication and read evidence only ever grow, whatever arrives in whatever order. */
  predicate Grows(f: Facts, g: Facts) {
    f.generation <= g.generation && (f.published ==> g.published) && (f.read ==> g.read)
  }

  lemma {:induction false} EvidenceGrows(f: Facts, es: seq<Event>)
    ensures Grows(f, Run(f, es))
    ensures FactsInv(f) ==> FactsInv(Run(f, es))
    ensures FactsInv(f) && f.read ==> Run(f, es).phase != Failed && Label(Run(f, es)) != "Failed"
  {
    if es != [] {
      EvidenceGrows(f, es[..|es| - 1]);
    }
  }

  /** Events of an older generation, wherever they are inserted, change nothing. */
  lemma {:induction false} StaleChangesNothing(f: Facts, es: seq<Event>)
    requires forall i | 0 <= i < |es| :: es[i].generation < f.generation
    ensures Run(f, es) == f
  {
    if es != [] {
      StaleChangesNothing(f, es[..|es| - 1]);
    }
  }

  // ---- What the facts are, from the accepted events ----

  /** An event counts if it is not of an older generation, and no failure of a delivered or read message. */
  predicate Counts(f: Facts, e: Event) {
    f.generation <= e.generation && !((e.Timeout? || e.Fail?) && (f.read || f.phase == Delivered))
  }

  predicate CountsAt(f: Facts, es: seq<Event>, k: nat) { k < |es| && Counts(Run(f, es[..k]), es[k]) }

  ghost predicate SomeCounted(f: Facts, es: seq<Event>, sel: Event -> bool) {
    exists k: nat :: CountsAt(f, es, k) && sel(es[k])
  }

  lemma CountsEarlier(f: Facts, es: seq<Event>, n: nat, k: nat)
    requires k < n <= |es|
    ensures CountsAt(f, es, k) == CountsAt(f, es[..n], k) && es[k] == es[..n][k]
  {
    hide Run, Counts;
    assert es[..k] == es[..n][..k];
  }

  lemma SomeCountedSnoc(f: Facts, es: seq<Event>, sel: Event -> bool)
    requires es != []
    ensures var n := |es| - 1;
      SomeCounted(f, es, sel) <==> SomeCounted(f, es[..n], sel) || (CountsAt(f, es, n) && sel(es[n]))
  {
    var n: nat := |es| - 1;
    if k: nat :| CountsAt(f, es, k) && sel(es[k]) {
      if k < n {
        CountsEarlier(f, es, n, k);
        hide CountsAt;
        assert SomeCounted(f, es[..n], sel);
      }
    }
    if k: nat :| CountsAt(f, es[..n], k) && sel(es[..n][k]) {
      CountsEarlier(f, es, n, k);
      hide CountsAt;
      assert SomeCounted(f, es, sel);
    }
  }

  /** Publication and reading are recorded exactly by the counted events that report them. */
  lemma {:induction false} EvidenceIs(f: Facts, es: seq<Event>)
    ensures Run(f, es).published <==>
      f.published || SomeCounted(f, es, (e: Event) => e.Published? || e.Receipt? || e.Read?)
    ensures Run(f, es).read <==> f.read || SomeCounted(f, es, (e: Event) => e.Read?)
  {
    if es != [] {
      EvidenceIs(f, es[..|es| - 1]);
      SomeCountedSnoc(f, es, (e: Event) => e.Published? || e.Receipt? || e.Read?);
      SomeCountedSnoc(f, es, (e: Event) => e.Read?);
      hide SomeCounted;
    }
  }

  /** Event `k` is the last counted one that `sel` selects. */
  ghost predicate LastCounted(f: Facts, es: seq<Event>, k: nat, sel: Event -> bool) {
    && CountsAt(f, es, k) && sel(es[k])
    && forall j: nat | k < j && CountsAt(f, es, j) :: !sel(es[j])
  }

  lemma LastCountedSnoc(f: Facts, es: seq<Event>, k: nat, sel: Event -> bool)
    requires LastCounted(f, es, k, sel) && k < |es| - 1
    ensures LastCounted(f, es[..|es| - 1], k, sel) && !(CountsAt(f, es, |es| - 1) && sel(es[|es| - 1]))
  {
    var n := |es| - 1;
    hide Run, Counts;
    forall j: nat | j < n
      ensures CountsAt(f, es, j) == CountsAt(f, es[..n], j) && es[j] == es[..n][j]
    {
      assert es[..j] == es[..n][..j];
    }
  }

  function PhaseAfter(e: Event): Phase {
    match e
    case Receipt(_) => Delivered
    case Read(_) => Delivered
    case StartAttempt(_) => Sending
    case Published(_) => Sending
    case Timeout(_) => Failed
    case Fail(_, _) => Failed
    case Retry(_, _) => Queued
  }

  /** The last counted event decides the generation and the phase. */
  lemma {:induction false} LastDecides(f: Facts, es: seq<Event>, k: nat)
    requires LastCounted(f, es, k, (e: Event) => true)
    ensures Run(f, es).generation == es[k].generation && Run(f, es).phase == PhaseAfter(es[k])
    ensures Run(f, es).awaitingAck <==> PhaseAfter(es[k]) == Sending
  {
    if k < |es| - 1 {
      LastCountedSnoc(f, es, k, (e: Event) => true);
      LastDecides(f, es[..|es| - 1], k);
    }
  }

  /** The current attempt is that of the last start, unless a retry was queued since. */
  lemma {:induction false} AttemptIs(f: Facts, es: seq<Event>, k: nat)
    requires LastCounted(f, es, k, (e: Event) => e.StartAttempt? || e.Retry?)
    ensures Run(f, es).attempt == if es[k].StartAttempt? then Some(es[k].generation) else None
  {
    if k < |es| - 1 {
      LastCountedSnoc(f, es, k, (e: Event) => e.StartAttempt? || e.Retry?);
      AttemptIs(f, es[..|es| - 1], k);
    }
  }

  /** The failure code is that of the last counted failure, unless an attempt was started since. */
  lemma {:induction false} FailureIs(f: Facts, es: seq<Event>, k: nat)
    requires LastCounted(f, es, k, (e: Event) => e.StartAttempt? || e.Timeout? || e.Fail?)
    ensures Run(f, es).failure ==
      if es[k].StartAttempt? then None else if es[k].Fail? then Some(es[k].code) else Some("timeout")
  {
    if k < |es| - 1 {
      LastCountedSnoc(f, es, k, (e: Event) => e.StartAttempt? || e.Timeout? || e.Fail?);
      FailureIs(f, es[..|es| - 1], k);
    }
  }

  /** The reason shown is that of the last counted retry. */
  lemma {:induction false} ReasonIs(f: Facts, es: seq<Event>, k: nat)
    requires LastCounted(f, es, k, (e: Event) => e.Retry?)
    ensures Run(f, es).reason == es[k].reason
  {
    if k < |es| - 1 {
      LastCountedSnoc(f, es, k, (e: Event) => e.Retry?);
      ReasonIs(f, es[..|es| - 1], k);
    }
  }

  // ---- Acknowledgements and failures of one generation commute ----

  predicate Outcomes(es: seq<Event>, g: nat) {
    forall i | 0 <= i < |es| :: es[i].generation == g && (es[i].Ack() || es[i].Failure())
  }

  ghost predicate HasAck(es: seq<Event>) { exists e | e in es :: e.Ack() }
  ghost predicate HasRead(es: seq<Event>) { exists e | e in es :: e.Read? }

  /** Code of the last failure before the first acknowledgement. */
  function LastCode(es: seq<Event>, code: Option<string>): Option<string> {
    if es == [] || es[0].Ack() then code
    else LastCode(es[1..], if es[0].Failure() then Some(es[0].Code()) else code)
  }

  /** The outcome of such a batch, independent of its order except for the failure code. */
  ghost function Outcome(f: Facts, es: seq<Event>, g: nat): Facts {
    if HasAck(es) then
      f.(generation := g, phase := Delivered, published := true, awaitingAck := false,
         read := f.read || HasRead(es), failure := if Settled(f) then f.failure else LastCode(es, f.failure))
    else if es == [] || Settled(f) then f
    else f.(generation := g, phase := Failed, awaitingAck := false, failure := LastCode(es, f.failure))
  }

  lemma {:induction false} LastCodeSnoc(es: seq<Event>, e: Event, code: Option<string>)
    requires forall i | 0 <= i < |es| :: es[i].Ack() || es[i].Failure()
    ensures LastCode(es + [e], code) ==
      if e.Failure() && !HasAck(es) then Some(e.Code()) else LastCode(es, code)
  {
    if es == [] {
      assert es + [e] == [e];
    } else {
      assert (es + [e])[1..] == es[1..] + [e];
      if !es[0].Ack() {
        LastCodeSnoc(es[1..], e, Some(es[0].Code()));
        assert forall x :: x in es <==> x == es[0] || x in es[1..];
      }
    }
  }

  lemma OutcomeStep(f: Facts, rest: seq<Event>, e: Event, g: nat)
    requires Outcomes(rest + [e], g) && f.generation <= g
    ensures Reduce(Outcome(f, rest, g), e) == Outcome(f, rest + [e], g)
  {
    assert (rest + [e])[|rest|] == e;
    assert Outcomes(rest, g) by {
      forall i | 0 <= i < |rest|
        ensures rest[i].generation == g && (rest[i].Ack() || rest[i].Failure())
      {
        assert (rest + [e])[i] == rest[i];
      }
    }
    LastCodeSnoc(rest, e, f.failure);
    SnocHas(rest, e);
    assert HasAck(rest) ==> rest != [];
    assert HasRead(rest) ==> HasAck(rest);
    hide HasAck, HasRead, LastCode, Outcomes;
  }

  lemma {:induction false} BatchOutcome(f: Facts, es: seq<Event>, g: nat)
    requires Outcomes(es, g) && f.generation <= g
    ensures Run(f, es) == Outcome(f, es, g)
  {
    if es != [] {
      var n := |es| - 1;
      assert es == es[..n] + [es[n]];
      BatchOutcome(f, es[..n], g);
      OutcomeStep(f, es[..n], es[n], g);
      hide Outcome, Reduce;
    }
  }

  lemma SnocHas(rest: seq<Event>, e: Event)
    ensures HasAck(rest + [e]) <==> HasAck(rest) || e.Ack()
    ensures HasRead(rest + [e]) <==> HasRead(rest) || e.Read?
  {
  }

  /**
   Receipts, reads, timeouts and failures of one generation give the same facts in every order, the failure
   code apart, and so the same label.
   */
  lemma OrderDoesNotMatter(f: Facts, a: seq<Event>, b: seq<Event>, g: nat)
    requires Outcomes(a, g) && f.generation <= g && multiset(a) == multiset(b)
    ensures Run(f, a).(failure := None) == Run(f, b).(failure := None)
    ensures Label(Run(f, a)) == Label(Run(f, b))
  {
    assert forall e :: e in a <==> e in multiset(a);
    assert forall e :: e in b <==> e in multiset(b);
    assert HasAck(a) == HasAck(b) && HasRead(a) == HasRead(b);
    assert |a| == |multiset(a)| && |b| == |multiset(b)|;
    assert Outcomes(b, g) by {
      forall i | 0 <= i < |b|
        ensures b[i].generation == g && (b[i].Ack() || b[i].Failure())
      {
        assert b[i] in a;
      }
    }
    BatchOutcome(f, a, g);
    BatchOutcome(f, b, g);
  }

  // ---- Which events undo a delivery ----

  /** A current `Published`, `StartAttempt` or `Retry`. */
  predicate Reopens(f: Facts, e: Event) {
    e.generation >= f.generation && (e.Published? || e.StartAttempt? || e.Retry?)
  }

  /** Delivered after every prefix of the run. */
  predicate DeliveredThroughout(f: Facts, es: seq<Event>) {
    Run(f, es).phase == Delivered && (es != [] ==> DeliveredThroughout(f, es[..|es| - 1]))
  }

  /** No event reopens the facts it meets. */
  predicate NeverReopened(f: Facts, es: seq<Event>) {
    es != [] ==> NeverReopened(f, es[..|es| - 1]) && !Reopens(Run(f, es[..|es| - 1]), es[|es| - 1])
  }

  lemma ReopenStep(f: Facts, e: Event)
    requires f.phase == Delivered
    ensures Reduce(f, e).phase == Delivered <==> !Reopens(f, e)
  {
  }

  /**
   The reducer's comment says late callbacks cannot erase a receipt. Over a run starting from a delivered
   message the phase is Delivered throughout exactly if no event reopens it.
   */
  lemma {:induction false} DeliveredStaysIff(f: Facts, es: seq<Event>)
    requires f.phase == Delivered
    ensures DeliveredThroughout(f, es) <==> NeverReopened(f, es)
  {
    if es != [] {
      var n := |es| - 1;
      DeliveredStaysIff(f, es[..n]);
      if DeliveredThroughout(f, es[..n]) {
        ReopenStep(Run(f, es[..n]), es[n]);
      }
      hide Reduce, Reopens;
    }
  }

  /** A late `Published` of the current generation takes the receipt back, and a timeout then reports failure. */
  lemma LatePublishedErasesReceipt(g: nat)
    ensures Label(Run(Default, [StartAttempt(g), Receipt(g)])) == "Delivered"
    ensures Label(Run(Default, [StartAttempt(g), Receipt(g), Published(g)])) == "Sent"
    ensures Label(Run(Default, [StartAttempt(g), Receipt(g), Published(g), Timeout(g)])) == "Failed"
  {
    var a := [StartAttempt(g), Receipt(g), Published(g), Timeout(g)];
    assert a[..3] == [StartAttempt(g), Receipt(g), Published(g)] && a[..3][..2] == [StartAttempt(g), Receipt(g)];
    assert a[..3][..2][..1] == [StartAttempt(g)];
    var started := Default.(generation := g, attempt := Some(g), phase := Sending, awaitingAck := true);
    assert Run(Default, a[..3][..2][..1]) == started;
    var received := started.(phase := Delivered, published := true, awaitingAck := false);
    assert Run(Default, a[..3][..2]) == received;
    assert Run(Default, a[..3]) == received.(phase := Sending, awaitingAck := true);
  }

  // ---- The older state enum ----

  datatype Legacy = LQueued | LSent | LDelivered | LSeen | LFailed

  predicate CanTransition(a: Legacy, b: Legacy) {
    || a == b
    || (a.LQueued? && (b.LSent? || b.LFailed?))
    || (a.LSent? && (b.LDelivered? || b.LSeen? || b.LFailed?))
    || (a.LDelivered? && (b.LSeen? || b.LFailed?))
  }

  /** A message moves one way from queued over sent and delivered to seen, may fail on the way, and then rests. */
  lemma TransitionsAre(a: Legacy, b: Legacy)
    ensures CanTransition(a, b) <==> a == b || (a, b) in {
      (LQueued, LSent), (LSent, LDelivered), (LSent, LSeen), (LDelivered, LSeen),
      (LQueued, LFailed), (LSent, LFailed), (LDelivered, LFailed)}
    ensures (a.LSeen? || a.LFailed?) && CanTransition(a, b) ==> b == a
  {
  }

  function FromLegacy(s: Legacy): Facts {
    var f := Default.(reason := LegacyUnknown);
    match s
    case LQueued => f
    case LSent => f.(phase := Sending, published := true, awaitingAck := true)
    case LDelivered => f.(phase := Delivered, published := true)
    case LSeen => f.(phase := Delivered, published := true, read := true)
    case LFailed => f.(phase := Failed)
  }

  /** Adapted facts meet the reducer's invariant, and their labels tell the five states apart. */
  lemma LegacyLabels(a: Legacy, b: Legacy)
    ensures FactsInv(FromLegacy(a))
    ensures Label(FromLegacy(a)) == Label(FromLegacy(b)) <==> a == b
    ensures FromLegacy(a).read <==> a.LSeen?
  {
  }

  // ---- The store ----

  datatype Entry = Entry(id: nat, topic: nat, state: Legacy, facts: Facts, text: string)

  function ForTopic(entries: seq<Entry>, topic: nat): seq<Entry> {
    if entries == [] then []
    else
      var rest := ForTopic(entries[..|entries| - 1], topic);
      if entries[|entries| - 1].topic == topic then rest + [entries[|entries| - 1]] else rest
  }

  function Last(s: seq<Entry>, count: nat): seq<Entry> {
    if |s| <= count then s else s[|s| - count..]
  }

  function Reverse(s: seq<Entry>): (r: seq<Entry>)
    ensures |r| == |s| && forall i | 0 <= i < |s| :: r[i] == s[|s| - 1 - i]
  {
    if s == [] then [] else [s[|s| - 1]] + Reverse(s[..|s| - 1])
  }

  /** One step of the backward scan. */
  lemma ScanStep(entries: seq<Entry>, topic: nat, i: nat, found: seq<Entry>)
    requires i < |entries|
    requires ForTopic(entries, topic) == ForTopic(entries[..i + 1], topic) + Reverse(found)
    ensures entries[i].topic != topic ==> ForTopic(entries, topic) == ForTopic(entries[..i], topic) + Reverse(found)
    ensures entries[i].topic == topic ==>
      ForTopic(entries, topic) == ForTopic(entries[..i], topic) + Reverse(found + [entries[i]])
  {
    assert entries[..i + 1][..i] == entries[..i];
    assert (found + [entries[i]])[..|found|] == found;
  }

  lemma ScanDone(entries: seq<Entry>, topic: nat, i: nat, found: seq<Entry>, count: nat)
    requires i <= |entries| && ForTopic(entries, topic) == ForTopic(entries[..i], topic) + Reverse(found)
    requires |found| == count || (i == 0 && |found| < count)
    ensures Reverse(found) == Last(ForTopic(entries, topic), count)
  {
  }

  /** `r` is the entries at increasing positions `at`, which are exactly those of `keep`. */
  ghost predicate Selects(entries: seq<Entry>, r: seq<Entry>, at: seq<nat>, keep: Entry -> bool) {
    && |at| == |r| && (forall i | 0 <= i < |at| :: at[i] < |entries| && r[i] == entries[at[i]])
    && (forall i, j | 0 <= i < j < |at| :: at[i] < at[j])
    && (forall k: nat | k < |entries| :: k in at <==> keep(entries[k]))
  }

  lemma SelectsSnoc(entries: seq<Entry>, r: seq<Entry>, at: seq<nat>, keep: Entry -> bool, e: Entry)
    requires Selects(entries, r, at, keep)
    ensures keep(e) ==> Selects(entries + [e], r + [e], at + [|entries|], keep)
    ensures !keep(e) ==> Selects(entries + [e], r, at, keep)
  {
    var more := entries + [e];
    assert forall k: nat | k < |entries| :: more[k] == entries[k];
    assert forall i | 0 <= i < |at| :: at[i] in at;
  }

  /** The topic's entries are exactly those of the topic, in the order of the store. */
  lemma {:induction false} ForTopicSelects(entries: seq<Entry>, topic: nat) returns (at: seq<nat>)
    ensures Selects(entries, ForTopic(entries, topic), at, (e: Entry) => e.topic == topic)
  {
    at := [];
    if entries != [] {
      var n := |entries| - 1;
      at := ForTopicSelects(entries[..n], topic);
      SelectsSnoc(entries[..n], ForTopic(entries[..n], topic), at, (e: Entry) => e.topic == topic, entries[n]);
      assert entries == entries[..n] + [entries[n]];
      hide Selects;
      if entries[n].topic == topic {
        at := at + [n];
      }
    }
  }

  /** Position of the first entry with this id. */
  function Find(entries: seq<Entry>, id: nat): Option<nat> {
    if entries == [] then None
    else if entries[0].id == id then Some(0)
    else match Find(entries[1..], id)
      case None => None
      case Some(k) => Some(k + 1)
  }

  predicate FirstWithId(entries: seq<Entry>, id: nat, k: nat) {
    k < |entries| && entries[k].id == id && forall j | 0 <= j < k :: entries[j].id != id
  }

  lemma {:induction false} FindIs(entries: seq<Entry>, id: nat)
    ensures match Find(entries, id)
      case None => forall e | e in entries :: e.id != id
      case Some(k) => FirstWithId(entries, id, k)
  {
    if entries != [] {
      FindIs(entries[1..], id);
    }
  }

  datatype Store = Store(entries: seq<Entry>, next: nat)

  datatype Op =
    | PushWithId(entry: Entry)
    | PushExplicit(entry: Entry, id: nat)
    | Seed(external: nat)
    | Update(target: nat, state: Legacy)
    | Clear
    | RemoveTopic(topic: nat)

  function Beyond(next: nat, id: nat): nat { if id >= next then id + 1 else next }

  function Without(entries: seq<Entry>, topic: nat): seq<Entry> {
    if entries == [] then []
    else
      var rest := Without(entries[..|entries| - 1], topic);
      if entries[|entries| - 1].topic == topic then rest else rest + [entries[|entries| - 1]]
  }

  datatype UpdateResult = Updated | InvalidTransition(eventId: nat, current: Legacy, attempted: Legacy)

  function WithState(entries: seq<Entry>, id: nat, state: Legacy): seq<Entry> {
    FindIs(entries, id);
    match Find(entries, id)
    case None => entries
    case Some(k) =>
      if CanTransition(entries[k].state, state)
      then entries[k := entries[k].(state := state, facts := FromLegacy(state))] else entries
  }

  function Apply(s: Store, op: Op): Store {
    match op
    case PushWithId(e) => Store(s.entries + [e.(id := s.next)], s.next + 1)
    case PushExplicit(e, id) => Store(s.entries + [e.(id := id)], Beyond(s.next, id))
    case Seed(external) => s.(next := Beyond(s.next, external))
    case Update(id, state) => s.(entries := WithState(s.entries, id, state))
    case Clear => s.(entries := [])
    case RemoveTopic(topic) => s.(entries := Without(s.entries, topic))
  }

  function Replay(s: Store, ops: seq<Op>): Store {
    if ops == [] then s else Apply(Replay(s, ops[..|ops| - 1]), ops[|ops| - 1])
  }

  /** A pushed entry becomes the newest of its topic; other topics do not change. */
  lemma PushIsNewest(s: Store, e: Entry, id: nat, topic: nat)
    ensures ForTopic(Apply(s, PushWithId(e)).entries, topic)
      == ForTopic(s.entries, topic) + if e.topic == topic then [e.(id := s.next)] else []
    ensures ForTopic(Apply(s, PushExplicit(e, id)).entries, topic)
      == ForTopic(s.entries, topic) + if e.topic == topic then [e.(id := id)] else []
  {
    assert (s.entries + [e.(id := s.next)])[..|s.entries|] == s.entries;
    assert (s.entries + [e.(id := id)])[..|s.entries|] == s.entries;
  }

  /** Removing a topic leaves exactly the others, in order. */
  lemma {:induction false} WithoutSelects(entries: seq<Entry>, topic: nat) returns (at: seq<nat>)
    ensures Selects(entries, Without(entries, topic), at, (e: Entry) => e.topic != topic)
  {
    at := [];
    if entries != [] {
      var n := |entries| - 1;
      at := WithoutSelects(entries[..n], topic);
      SelectsSnoc(entries[..n], Without(entries[..n], topic), at, (e: Entry) => e.topic != topic, entries[n]);
      assert entries == entries[..n] + [entries[n]];
      hide Selects;
      if entries[n].topic != topic {
        at := at + [n];
      }
    }
  }

  /** An allowed update gives the first entry with the id the new state and its label, and touches nothing else. */
  lemma UpdateIs(s: Store, id: nat, state: Legacy, k: nat)
    requires FirstWithId(s.entries, id, k)
    ensures var t, e := Apply(s, Update(id, state)), s.entries[k];
      && |t.entries| == |s.entries| && t.next == s.next
      && (forall j | 0 <= j < |s.entries| && j != k :: t.entries[j] == s.entries[j])
      && (if CanTransition(e.state, state)
          then t.entries[k] == e.(state := state, facts := t.entries[k].facts)
               && Label(t.entries[k].facts) == LegacyLabel(state) && FactsInv(t.entries[k].facts)
          else t == s)
  {
    FindIs(s.entries, id);
  }

  function LegacyLabel(s: Legacy): string {
    match s
    case LQueued => "Sending"
    case LSent => "Sent"
    case LDelivered => "Delivered"
    case LSeen => "Read"
    case LFailed => "Failed"
  }

  /** The id a call hands out, replays or reserves. */
  function IdOf(s: Store, op: Op): Option<nat> {
    match op
    case PushWithId(_) => Some(s.next)
    case PushExplicit(_, id) => Some(id)
    case Seed(external) => Some(external)
    case _ => None
  }

  lemma {:induction false} NextCovers(s: Store, ops: seq<Op>, j: nat)
    requires j < |ops|
    ensures var id := IdOf(Replay(s, ops[..j]), ops[j]); id.Some? ==> id.value < Replay(s, ops).next
  {
    var n := |ops| - 1;
    if j < n {
      assert ops[..n][..j] == ops[..j];
      NextCovers(s, ops[..n], j);
    }
  }

  /** An assigned id is above every id handed out, replayed or reserved before, deletions included. */
  lemma AssignedIdIsFresh(s: Store, ops: seq<Op>, j: nat, k: nat)
    requires j < k < |ops| && ops[k].PushWithId?
    ensures var earlier := IdOf(Replay(s, ops[..j]), ops[j]);
      earlier.Some? ==> earlier.value < Replay(s, ops[..k]).next == IdOf(Replay(s, ops[..k]), ops[k]).value
  {
    NextCovers(s, ops[..k], j);
    assert ops[..k][..j] == ops[..j];
  }

  class ChatHistoryStore {
    var entries: seq<Entry>
    var next: nat

    function View(): Store
      reads this
    {
      Store(entries, next)
    }

    constructor ()
      ensures View() == Store([], 1)
    {
      entries, next := [], 1;
    }

    method PushWithId(entry: Entry) returns (id: nat)
      modifies this
      ensures View() == Apply(old(View()), Op.PushWithId(entry)) && Some(id) == IdOf(old(View()), Op.PushWithId(entry))
    {
      id := next;
      next := next + 1;
      entries := entries + [entry.(id := id)];
    }

    method PushWithExplicitId(entry: Entry, id: nat)
      modifies this
      ensures View() == Apply(old(View()), PushExplicit(entry, id))
    {
      if id >= next {
        next := id + 1;
      }
      entries := entries + [entry.(id := id)];
    }

    method SeedNextEventId(external: nat)
      modifies this`next
      ensures View() == Apply(old(View()), Seed(external))
    {
      if external >= next {
        next := external + 1;
      }
    }

    /** Only the first entry with this id changes, and only along an allowed transition; the error names both states. */
    method UpdateDeliveryState(id: nat, state: Legacy) returns (r: UpdateResult)
      modifies this`entries
      ensures View() == Apply(old(View()), Update(id, state))
      ensures r == Updated <==>
        exists k: nat :: FirstWithId(old(entries), id, k) && CanTransition(old(entries)[k].state, state)
      ensures r != Updated ==> r.eventId == id && r.attempted == state
      ensures r != Updated && (forall e | e in old(entries) :: e.id != id) ==> r.current == LQueued
      ensures r != Updated ==> forall k: nat | FirstWithId(old(entries), id, k) :: r.current == old(entries)[k].state
    {
      FindIs(entries, id);
      var at := Find(entries, id);
      if at == None {
        assert forall k: nat | k < |entries| :: entries[k] in entries;
        return InvalidTransition(id, LQueued, state);
      }
      var k := at.value;
      assert entries[k] in entries;
      assert forall j: nat | FirstWithId(entries, id, j) :: j == k;
      if !CanTransition(entries[k].state, state) {
        return InvalidTransition(id, entries[k].state, state);
      }
      entries := entries[k := entries[k].(state := state, facts := FromLegacy(state))];
      r := Updated;
    }

    /** The backward scan stops early, and still gives the last `count` of the topic's entries in order. */
    method RecentForTopic(topic: nat, count: nat) returns (r: seq<Entry>)
      ensures r == Last(ForTopic(entries, topic), count)
    {
      if count == 0 {
        return [];
      }
      assert Reverse([]) == [];
      var newestFirst: seq<Entry> := [];
      var i := |entries|;
      assert entries[..i] == entries;
      hide ForTopic, Reverse, Last;
      while i > 0
        invariant 0 <= i <= |entries| && |newestFirst| < count
        invariant ForTopic(entries, topic) == ForTopic(entries[..i], topic) + Reverse(newestFirst)
      {
        i := i - 1;
        ScanStep(entries, topic, i, newestFirst);
        if entries[i].topic == topic {
          newestFirst := newestFirst + [entries[i]];
          if |newestFirst| >= count {
            break;
          }
        }
      }
      ScanDone(entries, topic, i, newestFirst, count);
      r := Reverse(newestFirst);
    }
  }

  class DeliveryCell {
    var facts: Facts

    constructor ()
      ensures facts == Default
    {
      facts := Default;
    }

    method Apply(e: Event) returns (accepted: bool)
      modifies this
      ensures facts == Reduce(old(facts), e) && accepted == Accepts(old(facts), e)
      ensures Grows(old(facts), facts) && (FactsInv(old(facts)) ==> FactsInv(facts))
    {
      if e.generation < facts.generation {
        return false;
      }
      match e {
        case Receipt(g) =>
          facts := facts.(generation := g, phase := Delivered, published := true, awaitingAck := false);
        case Read(g) =>
          facts := facts.(generation := g, phase := Delivered, published := true, awaitingAck := false);
          facts := facts.(read := true);
        case StartAttempt(g) =>
          facts := facts.(generation := g, attempt := Some(g), phase := Sending, awaitingAck := true, failure := None);
        case Published(g) =>
          facts := facts.(generation := g, phase := Sending, published := true, awaitingAck := true);
        case Retry(g, reason) =>
          facts := facts.(generation := g, phase := Queued, reason := reason, attempt := None, awaitingAck := false);
        case _ =>
          if facts.read || facts.phase == Delivered {
            return false;
          }
          facts := facts.(generation := e.generation, phase := Failed, awaitingAck := false, failure := Some(e.Code()));
      }
      accepted := true;
    }
  }
}
