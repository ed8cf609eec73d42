/**
 The crash-safe text outbox (src/application_service.rs): a send is admitted durably first, then
 projected into the history and thread tables, then marked complete.  Every projection statement
 commits on its own and may fail, and any number of repair workers may run at once.

 Hashes are modelled as the value hashed and the signed bytes as the message with its random
 identity, so equal hashes mean equal contents.
 */
module TextOutbox {
  import opened Basics

  type Topic = nat
  type Key = nat

  datatype ThreadTarget = ThreadTarget(root: nat, replyTo: Option<nat>)

  datatype Message = Message(text: string, target: Option<ThreadTarget>)

  /** A signed message: the random message id makes two signatures of one message differ. */
  datatype Envelope = Envelope(messageId: nat, message: Message)

  /** What admission stores for the later projection. */
  datatype Payload = Payload(
    topic: Topic, timestamp: nat, body: string, envelope: Envelope, messageHash: Message, target: Option<ThreadTarget>)

  datatype Command = Command(key: Key, topic: Topic, message: Message, payload: Payload, complete: bool)

  datatype Row = Row(topic: Topic, timestamp: nat, body: string, envelope: Envelope, target: Option<ThreadTarget>)

  datatype ThreadRow = ThreadRow(
    messageHash: Message, topic: Topic, timestamp: nat, envelope: Envelope, target: ThreadTarget)

  datatype Meta = Meta(lastActivity: nat, preview: string)

  /**
   The two databases.  Event ids are handed out as one more than the largest so far, so the row with
   event id `e` is at index `e - 1` of `outgoing` and of `commands`.
   */
  datatype World = World(
    outgoing: seq<Envelope>, commands: seq<Command>, threads: seq<ThreadRow>, rows: seq<Row>, meta: map<Topic, Meta>)

  const Fresh: World := World([], [], [], [], map[])

  // ------------------------------------------------------------------
  // Statements
  // ------------------------------------------------------------------

  datatype Request = Request(key: Key, topic: Topic, text: string, target: Option<ThreadTarget>)

  datatype Admission = EmptyText | KeyTaken | Admitted(event: nat)

  datatype SendOutcome =
    | Blank
    | AdmissionFailed
    | KeyReused
    | ReadBackFailed
    | Disappeared
    | Accepted(event: nat, envelope: Envelope)

  predicate IsSpace(c: char) { c == ' ' || c == '\t' || c == '\n' || c == '\r' }

  function Trim(s: string): string {
    if s == [] then s
    else if IsSpace(s[0]) then Trim(s[1..])
    else if IsSpace(s[|s| - 1]) then Trim(s[..|s| - 1])
    else s
  }

  function FindKey(commands: seq<Command>, key: Key): (r: Option<nat>)
    ensures r.Some? ==> r.value < |commands| && commands[r.value].key == key
    ensures r.None? ==> forall i | 0 <= i < |commands| :: commands[i].key != key
  {
    if commands == [] then None
    else if commands[|commands| - 1].key == key then Some(|commands| - 1)
    else FindKey(commands[..|commands| - 1], key)
  }

  /** Validation, signing and the committed admission transaction of one send. */
  function Admit(w: World, r: Request, messageId: nat, now: nat): (World, Admission) {
    var text := Trim(r.text);
    if text == [] then (w, EmptyText) else
    var message := Message(text, r.target);
    match FindKey(w.commands, r.key)
    case Some(i) =>
      if w.commands[i].topic != r.topic || w.commands[i].message != message then (w, KeyTaken)
      else (w, Admitted(i + 1))
    case None =>
      var envelope := Envelope(messageId, message);
      var payload := Payload(r.topic, now, text, envelope, message, r.target);
      (w.(outgoing := w.outgoing + [envelope],
          commands := w.commands + [Command(r.key, r.topic, message, payload, false)]),
       Admitted(|w.outgoing| + 1))
  }

  /** The separate query that reads the admitted bytes back. */
  function ReadBack(w: World, event: nat): Option<Envelope> {
    if 1 <= event <= |w.outgoing| then Some(w.outgoing[event - 1]) else None
  }

  /** A send up to its answer; the transaction (`noCommit`) or the read-back (`noRead`) may fail. */
  function Reply(w: World, r: Request, messageId: nat, now: nat, noCommit: bool, noRead: bool): (World, SendOutcome) {
    if Trim(r.text) != [] && noCommit then (w, AdmissionFailed)
    else
      var (w', a) := Admit(w, r, messageId, now);
      match a
      case EmptyText => (w', Blank)
      case KeyTaken => (w', KeyReused)
      case Admitted(event) =>
        (w', if noRead then ReadBackFailed
             else match ReadBack(w', event)
               case None => Disappeared
               case Some(envelope) => Accepted(event, envelope))
  }

  datatype Item = Item(event: nat, payload: Payload)

  /** Admitted commands not yet marked complete, in event order. */
  function Pending(commands: seq<Command>): seq<Item> {
    if commands == [] then []
    else
      var n := |commands|;
      Pending(commands[..n - 1]) + if commands[n - 1].complete then [] else [Item(n, commands[n - 1].payload)]
  }

  function FindRow(rows: seq<Row>, e: Envelope): (r: Option<nat>)
    ensures r.Some? ==> r.value < |rows| && rows[r.value].envelope == e
    ensures r.None? ==> forall k | 0 <= k < |rows| :: rows[k].envelope != e
  {
    if rows == [] then None
    else if rows[|rows| - 1].envelope == e then Some(|rows| - 1)
    else FindRow(rows[..|rows| - 1], e)
  }

  predicate HasThread(threads: seq<ThreadRow>, m: Message) {
    exists k | 0 <= k < |threads| :: threads[k].messageHash == m
  }

  function NewRow(p: Payload): Row {
    Row(p.topic, p.timestamp, p.body, p.envelope, None)
  }

  function WithTarget(w: World, p: Payload): World {
    match FindRow(w.rows, p.envelope)
    case None => w
    case Some(k) => w.(rows := w.rows[k := w.rows[k].(target := p.target)])
  }

  function WithThread(w: World, p: Payload): World {
    if p.target.None? || HasThread(w.threads, p.messageHash) then w
    else w.(threads := w.threads + [ThreadRow(p.messageHash, p.topic, p.timestamp, p.envelope, p.target.value)])
  }

  function WithMark(w: World, event: nat): World {
    if 1 <= event <= |w.commands|
    then w.(commands := w.commands[event - 1 := w.commands[event - 1].(complete := true)]) else w
  }

  // ------------------------------------------------------------------
  // The protocol
  // ------------------------------------------------------------------

  /** The next statement of a repair worker for its first item. */
  datatype Stage = AtRow | AtMeta | AtTarget | AtThread | AtMark

  datatype Worker = Busy(items: seq<Item>, stage: Stage)

  datatype Sys = Sys(world: World, workers: map<nat, Worker>)

  /** A send, a worker reading the pending list, one statement succeeding or failing, or a restart. */
  datatype Action =
    | Send(request: Request, messageId: nat, now: nat)
    | Begin(id: nat)
    | Advance(id: nat)
    | Fail(id: nat)
    | Crash

  function AfterMeta(p: Payload): Stage {
    if p.target.Some? then AtTarget else AtMark
  }

  function Next(s: Sys, a: Action): Sys {
    match a
    case Send(r, messageId, now) => s.(world := Admit(s.world, r, messageId, now).0)
    case Begin(id) =>
      var items := Pending(s.world.commands);
      if id in s.workers || items == [] then s else s.(workers := s.workers[id := Busy(items, AtRow)])
    case Advance(id) =>
      if id !in s.workers || s.workers[id].items == [] then s
      else Execute(s, id, s.workers[id].items, s.workers[id].stage)
    case Fail(id) => s.(workers := s.workers - {id})
    case Crash => s.(workers := map[])
  }

  /** One successful statement of worker `id`. */
  function Execute(s: Sys, id: nat, items: seq<Item>, stage: Stage): Sys
    requires items != []
  {
    var w, p := s.world, items[0].payload;
    match stage
    case AtRow =>
      (match FindRow(w.rows, p.envelope)
       case None => Sys(w.(rows := w.rows + [NewRow(p)]), s.workers[id := Busy(items, AtMeta)])
       case Some(k) =>
         // An existing row with another topic is a conflicting binding: the worker stops with an error.
         if w.rows[k].topic == p.topic then Sys(w, s.workers[id := Busy(items, AfterMeta(p))])
         else Sys(w, s.workers - {id}))
    case AtMeta =>
      Sys(w.(meta := w.meta[p.topic := Meta(p.timestamp, p.body)]), s.workers[id := Busy(items, AfterMeta(p))])
    case AtTarget => Sys(WithTarget(w, p), s.workers[id := Busy(items, AtThread)])
    case AtThread => Sys(WithThread(w, p), s.workers[id := Busy(items, AtMark)])
    case AtMark =>
      Sys(WithMark(w, items[0].event),
          if |items| == 1 then s.workers - {id} else s.workers[id := Busy(items[1..], AtRow)])
  }

  function Run(s: Sys, actions: seq<Action>): Sys {
    if actions == [] then s else Next(Run(s, actions[..|actions| - 1]), actions[|actions| - 1])
  }

  // ------------------------------------------------------------------
  // The invariant
  // ------------------------------------------------------------------

  /** What admission writes: the payload repeats the request, and the envelope carries the message. */
  predicate CommandOk(c: Command) {
    && c.payload.topic == c.topic && c.payload.envelope.message == c.message && c.payload.messageHash == c.message
    && c.payload.target == c.message.target && c.payload.body == c.message.text
  }

  ghost predicate CommandsInv(w: World) {
    && |w.outgoing| == |w.commands|
    && (forall i | 0 <= i < |w.commands| :: CommandOk(w.commands[i]) && w.outgoing[i] == w.commands[i].payload.envelope)
    && (forall i, j | 0 <= i < j < |w.commands| :: w.commands[i].key != w.commands[j].key)
  }

  /** The row was projected from an admitted command. */
  ghost predicate RowAdmitted(commands: seq<Command>, r: Row) {
    exists i | 0 <= i < |commands| :: NewRow(commands[i].payload) == r.(target := None)
  }

  predicate IsThreadRowOf(t: ThreadRow, p: Payload) {
    p.target.Some? && t == ThreadRow(p.messageHash, p.topic, p.timestamp, p.envelope, p.target.value)
  }

  ghost predicate ThreadAdmitted(commands: seq<Command>, t: ThreadRow) {
    exists i | 0 <= i < |commands| :: IsThreadRowOf(t, commands[i].payload)
  }

  ghost predicate RowsInv(w: World) {
    && (forall k | 0 <= k < |w.rows| :: RowAdmitted(w.commands, w.rows[k]))
    && (forall k | 0 <= k < |w.rows| ::
          w.rows[k].target == None || w.rows[k].target == w.rows[k].envelope.message.target)
    && (forall j, k | 0 <= j < k < |w.rows| :: w.rows[j].envelope != w.rows[k].envelope)
  }

  ghost predicate ThreadsInv(w: World) {
    && (forall k | 0 <= k < |w.threads| :: ThreadAdmitted(w.commands, w.threads[k]))
    && (forall j, k | 0 <= j < k < |w.threads| :: w.threads[j].messageHash != w.threads[k].messageHash)
  }

  /** A history row for the payload's envelope and topic exists, with its thread target if `targeted`. */
  ghost predicate InHistory(w: World, p: Payload, targeted: bool) {
    exists k | 0 <= k < |w.rows| ::
      w.rows[k].envelope == p.envelope && w.rows[k].topic == p.topic && (targeted ==> w.rows[k].target == p.target)
  }

  /** Everything the projection of `p` writes, short of the conversation metadata, is there. */
  ghost predicate Projected(w: World, p: Payload) {
    InHistory(w, p, true) && (p.target.Some? ==> HasThread(w.threads, p.messageHash))
  }

  /** What the earlier statements for `p` have already achieved at this stage. */
  ghost predicate Reached(w: World, p: Payload, stage: Stage) {
    match stage
    case AtRow => true
    case AtMeta => InHistory(w, p, p.target.None?)
    case AtTarget => InHistory(w, p, false) && p.target.Some?
    case AtThread => InHistory(w, p, true) && p.target.Some?
    case AtMark => Projected(w, p)
  }

  ghost predicate ItemOk(w: World, item: Item) {
    1 <= item.event <= |w.commands| && w.commands[item.event - 1].payload == item.payload
  }

  ghost predicate WorkerOk(w: World, worker: Worker) {
    && worker.items != [] && (forall k | 0 <= k < |worker.items| :: ItemOk(w, worker.items[k]))
    && Reached(w, worker.items[0].payload, worker.stage)
  }

  ghost predicate CompleteInv(w: World) {
    forall i | 0 <= i < |w.commands| && w.commands[i].complete :: Projected(w, w.commands[i].payload)
  }

  ghost predicate WorldInv(w: World) {
    CommandsInv(w) && RowsInv(w) && ThreadsInv(w) && CompleteInv(w)
  }

  ghost predicate Inv(s: Sys) {
    WorldInv(s.world) && forall id | id in s.workers :: WorkerOk(s.world, s.workers[id])
  }

  /** Nothing admitted or projected is ever lost or rewritten; only marks, targets and new rows appear. */
  ghost predicate Grows(w: World, w': World) {
    && |w.commands| <= |w'.commands| && w.outgoing <= w'.outgoing && w.threads <= w'.threads
    && (forall i | 0 <= i < |w.commands| ::
          && w'.commands[i].(complete := false) == w.commands[i].(complete := false)
          && (w.commands[i].complete ==> w'.commands[i].complete))
    && |w.rows| <= |w'.rows|
    && (forall k | 0 <= k < |w.rows| ::
          && w'.rows[k].(target := None) == w.rows[k].(target := None)
          && (w.rows[k].target.Some? ==> w'.rows[k].target == w.rows[k].target))
  }

  lemma GrowsTransitive(a: World, b: World, c: World)
    requires Grows(a, b) && Grows(b, c)
    ensures Grows(a, c)
  {
  }

  lemma GrowsKeepsHistory(w: World, w': World, p: Payload, targeted: bool)
    requires Grows(w, w') && RowsInv(w') && InHistory(w, p, targeted) && p.target == p.envelope.message.target
    ensures InHistory(w', p, targeted)
  {
  }

  lemma GrowsKeepsWorker(w: World, w': World, worker: Worker)
    requires Grows(w, w') && WorkerOk(w, worker) && CommandsInv(w) && RowsInv(w')
    ensures WorkerOk(w', worker)
  {
  }

  lemma GrowsKeepsComplete(w: World, w': World, marked: int)
    requires Grows(w, w') && CommandsInv(w) && RowsInv(w') && CompleteInv(w)
    requires forall i | 0 <= i < |w'.commands| && w'.commands[i].complete && i != marked ::
      i < |w.commands| && w.commands[i].complete
    requires 0 <= marked < |w.commands| ==> Projected(w, w.commands[marked].payload)
    requires marked < |w.commands|
    ensures CompleteInv(w')
  {
  }

  lemma AdmittedByGrown(commands: seq<Command>, commands': seq<Command>)
    requires |commands| <= |commands'|
    requires forall i | 0 <= i < |commands| :: commands'[i].payload == commands[i].payload
    ensures forall r | RowAdmitted(commands, r) :: RowAdmitted(commands', r)
    ensures forall t | ThreadAdmitted(commands, t) :: ThreadAdmitted(commands', t)
  {
  }

  lemma {:induction false} AdmitKeeps(w: World, r: Request, messageId: nat, now: nat)
    requires WorldInv(w)
    ensures var w' := Admit(w, r, messageId, now).0; WorldInv(w') && Grows(w, w')
  {
    hide InHistory, HasThread, RowAdmitted, ThreadAdmitted, Trim, Projected;
    var w' := Admit(w, r, messageId, now).0;
    AdmittedByGrown(w.commands, w'.commands);
    assert RowsInv(w');
    GrowsKeepsComplete(w, w', -1);
  }

  lemma {:induction false} RowKeeps(w: World, item: Item)
    requires WorldInv(w) && ItemOk(w, item) && FindRow(w.rows, item.payload.envelope).None?
    ensures var w' := w.(rows := w.rows + [NewRow(item.payload)]);
      WorldInv(w') && Grows(w, w') && Reached(w', item.payload, AtMeta)
  {
    var p := item.payload;
    var w' := w.(rows := w.rows + [NewRow(p)]);
    assert RowAdmitted(w.commands, NewRow(p)) by {
      assert NewRow(w.commands[item.event - 1].payload) == NewRow(p).(target := None);
    }
    assert w'.rows[|w.rows|] == NewRow(p);
    assert RowsInv(w');
    GrowsKeepsComplete(w, w', -1);
  }

  lemma DuplicateReached(w: World, item: Item)
    requires WorldInv(w) && ItemOk(w, item) && FindRow(w.rows, item.payload.envelope).Some?
    requires w.rows[FindRow(w.rows, item.payload.envelope).value].topic == item.payload.topic
    ensures Reached(w, item.payload, AfterMeta(item.payload))
  {
  }

  lemma GrowsReflexive(w: World)
    ensures Grows(w, w)
  {
  }

  lemma MetaKeeps(w: World, item: Item)
    requires WorldInv(w) && ItemOk(w, item) && Reached(w, item.payload, AtMeta)
    ensures var p := item.payload; var w' := w.(meta := w.meta[p.topic := Meta(p.timestamp, p.body)]);
      WorldInv(w') && Grows(w, w') && Reached(w', p, AfterMeta(p))
  {
  }

  lemma TargetRows(w: World, p: Payload)
    requires RowsInv(w) && p.target == p.envelope.message.target
    ensures var w' := WithTarget(w, p); RowsInv(w') && Grows(w, w')
  {
  }

  lemma {:induction false} TargetKeeps(w: World, item: Item)
    requires WorldInv(w) && ItemOk(w, item) && Reached(w, item.payload, AtTarget)
    ensures var w' := WithTarget(w, item.payload);
      WorldInv(w') && Grows(w, w') && Reached(w', item.payload, AtThread)
  {
    hide RowAdmitted, ThreadAdmitted, HasThread;
    var p, w' := item.payload, WithTarget(w, item.payload);
    assert CommandOk(w.commands[item.event - 1]);
    TargetRows(w, p);
    var k := FindRow(w.rows, p.envelope).value;
    assert w'.rows[k].envelope == p.envelope && w'.rows[k].topic == p.topic && w'.rows[k].target == p.target;
    GrowsKeepsComplete(w, w', -1);
  }

  lemma {:induction false} ThreadKeeps(w: World, item: Item)
    requires WorldInv(w) && ItemOk(w, item) && Reached(w, item.payload, AtThread)
    ensures var w' := WithThread(w, item.payload);
      WorldInv(w') && Grows(w, w') && Reached(w', item.payload, AtMark)
  {
    hide RowAdmitted, InHistory;
    var p, w' := item.payload, WithThread(w, item.payload);
    assert CommandOk(w.commands[item.event - 1]);
    if !HasThread(w.threads, p.messageHash) {
      var t := ThreadRow(p.messageHash, p.topic, p.timestamp, p.envelope, p.target.value);
      assert w'.threads[|w.threads|] == t;
      assert ThreadAdmitted(w.commands, t) by {
        assert IsThreadRowOf(t, w.commands[item.event - 1].payload);
      }
    }
    assert RowsInv(w');
    GrowsKeepsHistory(w, w', p, true);
    GrowsKeepsComplete(w, w', -1);
  }

  lemma MarkGrows(w: World, event: nat)
    requires CommandsInv(w) && 1 <= event <= |w.commands|
    ensures var w' := WithMark(w, event); Grows(w, w') && CommandsInv(w')
    ensures forall i | 0 <= i < |w.commands| :: WithMark(w, event).commands[i].payload == w.commands[i].payload
  {
  }

  lemma {:induction false} MarkKeeps(w: World, item: Item)
    requires WorldInv(w) && ItemOk(w, item) && Reached(w, item.payload, AtMark)
    ensures var w' := WithMark(w, item.event);
      WorldInv(w') && Grows(w, w') && w'.commands[item.event - 1].complete
  {
    var w' := WithMark(w, item.event);
    MarkGrows(w, item.event);
    AdmittedByGrown(w.commands, w'.commands);
    GrowsKeepsComplete(w, w', item.event - 1);
  }

  predicate Incomplete(commands: seq<Command>, item: Item) {
    && 1 <= item.event <= |commands|
    && item.payload == commands[item.event - 1].payload && !commands[item.event - 1].complete
  }

  /** The pending list holds only incomplete commands, each once, in event order. */
  lemma {:induction false} PendingSound(commands: seq<Command>)
    ensures forall k | 0 <= k < |Pending(commands)| :: Incomplete(commands, Pending(commands)[k])
    ensures forall j, k | 0 <= j < k < |Pending(commands)| :: Pending(commands)[j].event < Pending(commands)[k].event
  {
    if commands != [] {
      var n := |commands|;
      PendingSound(commands[..n - 1]);
      var rest, items := Pending(commands[..n - 1]), Pending(commands);
      forall k | 0 <= k < |items|
        ensures Incomplete(commands, items[k]) && (k < |rest| ==> items[k] == rest[k] && items[k].event < n)
      {
        if k < |rest| {
          assert Incomplete(commands[..n - 1], rest[k]);
        }
      }
    }
  }

  /** ... and every incomplete command is on it. */
  lemma {:induction false} PendingComplete(commands: seq<Command>, i: nat) returns (k: nat)
    requires i < |commands| && !commands[i].complete
    ensures k < |Pending(commands)| && Pending(commands)[k].event == i + 1
  {
    var n := |commands|;
    if i == n - 1 {
      k := |Pending(commands)| - 1;
    } else {
      k := PendingComplete(commands[..n - 1], i);
    }
  }

  /** One successful statement keeps the world, and moves its worker to a stage whose facts hold. */
  lemma {:induction false} ExecuteKeeps(s: Sys, id: nat)
    requires Inv(s) && id in s.workers
    ensures var s' := Execute(s, id, s.workers[id].items, s.workers[id].stage);
      && WorldInv(s'.world) && Grows(s.world, s'.world)
      && (id in s'.workers ==> WorkerOk(s'.world, s'.workers[id]))
      && (forall j | j in s'.workers && j != id :: j in s.workers && s'.workers[j] == s.workers[j])
  {
    hide WorldInv, Grows, InHistory, HasThread, Projected;
    var w, items, stage := s.world, s.workers[id].items, s.workers[id].stage;
    GrowsReflexive(w);
    var s' := Execute(s, id, items, stage);
    var item := items[0];
    assert WorkerOk(w, s.workers[id]) && ItemOk(w, item);
    match stage {
      case AtRow =>
        if FindRow(w.rows, item.payload.envelope).None? {
          RowKeeps(w, item);
        } else if w.rows[FindRow(w.rows, item.payload.envelope).value].topic == item.payload.topic {
          DuplicateReached(w, item);
        }
      case AtMeta => MetaKeeps(w, item);
      case AtTarget => TargetKeeps(w, item);
      case AtThread => ThreadKeeps(w, item);
      case AtMark =>
        MarkKeeps(w, item);
        assert forall k | 0 <= k < |items| :: ItemOk(w, items[k]);
    }
  }

  lemma {:induction false} GrowsKeepsWorkers(w: World, w': World, workers: map<nat, Worker>)
    requires Grows(w, w') && CommandsInv(w) && RowsInv(w') && forall id | id in workers :: WorkerOk(w, workers[id])
    ensures forall id | id in workers :: WorkerOk(w', workers[id])
  {
    forall id | id in workers
      ensures WorkerOk(w', workers[id])
    {
      GrowsKeepsWorker(w, w', workers[id]);
    }
  }

  lemma {:induction false} NextKeepsInv(s: Sys, a: Action)
    requires Inv(s)
    ensures Inv(Next(s, a)) && Grows(s.world, Next(s, a).world)
  {
    hide CommandsInv, RowsInv, ThreadsInv, CompleteInv, Grows, WorkerOk, Execute, Admit;
    GrowsReflexive(s.world);
    match a {
      case Send(r, messageId, now) =>
        AdmitKeeps(s.world, r, messageId, now);
        GrowsKeepsWorkers(s.world, Next(s, a).world, s.workers);
      case Begin(id) =>
        if Pending(s.world.commands) != [] { BeginKeeps(s.world); }
      case Advance(id) =>
        if id in s.workers {
          ExecuteKeeps(s, id);
          GrowsKeepsWorkers(s.world, Next(s, a).world, s.workers);
        }
      case _ =>
    }
  }

  lemma {:induction false} BeginKeeps(w: World)
    requires CommandsInv(w) && Pending(w.commands) != []
    ensures WorkerOk(w, Busy(Pending(w.commands), AtRow))
  {
    PendingSound(w.commands);
    var items := Pending(w.commands);
    assert forall k | 0 <= k < |items| :: Incomplete(w.commands, items[k]) && ItemOk(w, items[k]);
  }

  lemma {:induction false} RunKeepsInv(s: Sys, actions: seq<Action>)
    requires Inv(s)
    ensures Inv(Run(s, actions)) && WorldInv(Run(s, actions).world) && Grows(s.world, Run(s, actions).world)
  {
    if actions != [] {
      var t := Run(s, actions[..|actions| - 1]);
      RunKeepsInv(s, actions[..|actions| - 1]);
      NextKeepsInv(t, actions[|actions| - 1]);
      GrowsTransitive(s.world, t.world, Run(s, actions).world);
    }
  }

  const Start: Sys := Sys(Fresh, map[])

  /** Under every interleaving of sends, workers, failures and restarts the invariant holds. */
  lemma {:induction false} ReachableInv(actions: seq<Action>)
    ensures Inv(Run(Start, actions))
  {
    RunKeepsInv(Start, actions);
  }

  /** The row shows the message of command `i`, in its conversation, under its signed bytes. */
  predicate Shows(w: World, r: Row, i: nat) {
    && i < |w.commands| && i < |w.outgoing|
    && r.envelope == w.outgoing[i] && r.topic == w.commands[i].topic && r.body == w.commands[i].message.text
  }

  ghost predicate ShowsACommand(w: World, r: Row) {
    exists i :: Shows(w, r, i)
  }

  /**
   Safety of every run: each history row is the projection of an admitted command, no envelope has two
   rows, and what is marked complete is in the history (with its thread target) and in the thread table.
   */
  lemma {:induction false} ProjectionSafety(actions: seq<Action>)
    ensures var w := Run(Start, actions).world;
      && (forall k | 0 <= k < |w.rows| :: ShowsACommand(w, w.rows[k]))
      && (forall j, k | 0 <= j < k < |w.rows| :: w.rows[j].envelope != w.rows[k].envelope)
      && (forall i | 0 <= i < |w.commands| && w.commands[i].complete :: Projected(w, w.commands[i].payload))
  {
    ReachableInv(actions);
    RowsShown(Run(Start, actions).world);
  }

  lemma {:induction false} RowsShown(w: World)
    requires WorldInv(w)
    ensures forall k | 0 <= k < |w.rows| :: ShowsACommand(w, w.rows[k])
  {
    forall k | 0 <= k < |w.rows|
      ensures ShowsACommand(w, w.rows[k])
    {
      var bare := w.rows[k].(target := None);
      assert RowAdmitted(w.commands, w.rows[k]);
      var i :| 0 <= i < |w.commands| && NewRow(w.commands[i].payload) == bare;
      assert CommandOk(w.commands[i]);
      assert bare.envelope == w.rows[k].envelope && bare.topic == w.rows[k].topic && bare.body == w.rows[k].body;
      assert Shows(w, w.rows[k], i);
    }
  }

  /**
   Retries of one command key: once a send has been admitted, whether or not its caller got an answer, and
   whatever happens in between, a second send with the same key is accepted exactly if it is the same request
   and does not fail itself; it then returns the event id and signed bytes of the first and adds nothing.
   */
  lemma {:induction false} RetryReturnsFirst(
    s: Sys, r: Request, messageId: nat, now: nat, noRead: bool, actions: seq<Action>,
    r': Request, messageId': nat, now': nat, noCommit': bool, noRead': bool)
    requires Inv(s) && r'.key == r.key && Admit(s.world, r, messageId, now).1.Admitted?
    ensures var first := Reply(s.world, r, messageId, now, false, noRead);
      var event := Admit(s.world, r, messageId, now).1.event;
      var w := Run(s.(world := first.0), actions).world;
      var second := Reply(w, r', messageId', now', noCommit', noRead');
      && second.0 == w && 1 <= event <= |first.0.outgoing|
      && first.1 == (if noRead then ReadBackFailed else Accepted(event, first.0.outgoing[event - 1]))
      && (second.1.Accepted? ==> second.1 == Accepted(event, first.0.outgoing[event - 1]))
      && (second.1.Accepted? <==>
            Trim(r'.text) == Trim(r.text) && r'.topic == r.topic && r'.target == r.target && !noCommit' && !noRead')
  {
    hide Run, Inv, Admit, CommandsInv;
    AdmittedStays(s, r, messageId, now, actions);
    AdmittedIsStored(s.world, r, messageId, now);
    var (w0, a) := Admit(s.world, r, messageId, now);
    var w := Run(s.(world := w0), actions).world;
    ResubmitStored(w, a.event - 1, r', messageId', now');
    var again := Admit(w, r', messageId', now');
    assert ReadBack(w, a.event) == ReadBack(w0, a.event) == Some(w0.outgoing[a.event - 1]);
    assert again.0 == w && (again.1.Admitted? ==> again.1 == Admitted(a.event));
    assert again.1.Admitted? <==> Trim(r'.text) == Trim(r.text) && r'.topic == r.topic && r'.target == r.target;
    hide ReadBack;
  }

  /** Nothing that happens later changes an admitted command or its bytes. */
  lemma AdmittedStays(s: Sys, r: Request, messageId: nat, now: nat, actions: seq<Action>)
    requires Inv(s) && Admit(s.world, r, messageId, now).1.Admitted?
    ensures CommandsInv(s.world)
    ensures var (w0, a) := Admit(s.world, r, messageId, now); var w := Run(s.(world := w0), actions).world;
      && CommandsInv(w) && 1 <= a.event <= |w.commands| == |w.outgoing|
      && a.event <= |w0.outgoing| && w.outgoing[a.event - 1] == w0.outgoing[a.event - 1]
      && w.commands[a.event - 1].key == r.key && w.commands[a.event - 1].topic == r.topic
      && w.commands[a.event - 1].message == Message(Trim(r.text), r.target) && Trim(r.text) != []
  {
    var (w0, a) := Admit(s.world, r, messageId, now);
    NextKeepsInv(s, Send(r, messageId, now));
    RunKeepsInv(s.(world := w0), actions);
    AdmittedIsStored(s.world, r, messageId, now);
    var w := Run(s.(world := w0), actions).world;
    hide Admit, Run, Next, Trim;
    assert w.commands[a.event - 1].(complete := false) == w0.commands[a.event - 1].(complete := false);
  }

  /** An admitted send is durable: command and envelope under the event id, the command under its key. */
  lemma AdmittedIsStored(w: World, r: Request, messageId: nat, now: nat)
    requires CommandsInv(w) && Admit(w, r, messageId, now).1.Admitted?
    ensures var (w', a) := Admit(w, r, messageId, now);
      && 1 <= a.event <= |w'.commands| == |w'.outgoing|
      && w'.commands[a.event - 1].key == r.key && w'.commands[a.event - 1].topic == r.topic
      && w'.commands[a.event - 1].message == Message(Trim(r.text), r.target) && Trim(r.text) != []
  {
  }

  /** A send under a stored key is decided by the stored request, and answered from it. */
  lemma ResubmitStored(w: World, i: nat, r: Request, messageId: nat, now: nat)
    requires CommandsInv(w) && i < |w.commands| && w.commands[i].key == r.key && w.commands[i].message.text != []
    ensures var (w', a) := Admit(w, r, messageId, now);
      && w' == w && (a.Admitted? ==> a.event == i + 1)
      && (a.Admitted? <==> Message(Trim(r.text), r.target) == w.commands[i].message && r.topic == w.commands[i].topic)
  {
  }

  /** The text is blank, the transaction fails, or the key is stored already. */
  predicate NotAdmitted(w: World, r: Request, noCommit: bool) {
    Trim(r.text) == [] || noCommit || FindKey(w.commands, r.key).Some?
  }

  /**
   What an error says about the stores: they are unchanged exactly if the error came before the commit or the
   key was already stored; an error of the read-back leaves a newly admitted command behind, to be repaired.
   */
  lemma ErrorChangedNothingIff(w: World, r: Request, messageId: nat, now: nat, noCommit: bool, noRead: bool)
    requires CommandsInv(w)
    ensures var (w', o) := Reply(w, r, messageId, now, noCommit, noRead);
      && o != Disappeared
      && (!o.Accepted? ==> (w' == w <==> NotAdmitted(w, r, noCommit)))
      && (o == ReadBackFailed && FindKey(w.commands, r.key).None? ==>
            w'.commands[..|w.commands|] == w.commands && |w'.commands| == |w.commands| + 1
            && w'.commands[|w.commands|].key == r.key && !w'.commands[|w.commands|].complete)
  {
    hide Trim;
  }

  // ------------------------------------------------------------------
  // The service object
  // ------------------------------------------------------------------

  /** Every admitted envelope is different, as random message ids make it. */
  ghost predicate UniqueEnvelopes(commands: seq<Command>) {
    forall i, j | 0 <= i < j < |commands| :: commands[i].payload.envelope != commands[j].payload.envelope
  }

  datatype RepairOutcome = Repaired(count: nat) | RepairFailed

  lemma RunSnoc(s: Sys, actions: seq<Action>, a: Action)
    ensures Run(s, actions + [a]) == Next(Run(s, actions), a)
  {
  }

  /** With unique envelopes, an existing row never has a conflicting topic. */
  lemma NoConflict(w: World, item: Item)
    requires WorldInv(w) && UniqueEnvelopes(w.commands) && ItemOk(w, item)
    requires FindRow(w.rows, item.payload.envelope).Some?
    ensures w.rows[FindRow(w.rows, item.payload.envelope).value].topic == item.payload.topic
  {
  }

  /** The accepted send is durable: its command under its key, its envelope under its event id. */
  predicate StoredAs(w: World, r: Request, o: SendOutcome) {
    && o.Accepted? && 1 <= o.event <= |w.commands| && o.event <= |w.outgoing|
    && w.commands[o.event - 1].key == r.key && w.outgoing[o.event - 1] == o.envelope
  }

  /** The accepted send is visible, and nothing else is waiting either. */
  ghost predicate ShownAs(w: World, o: SendOutcome) {
    && o.Accepted? && 1 <= o.event <= |w.commands|
    && Projected(w, w.commands[o.event - 1].payload) && Pending(w.commands) == []
  }

  class ConversationService {
    var outgoing: seq<Envelope>
    var commands: seq<Command>
    var threads: seq<ThreadRow>
    var rows: seq<Row>
    var meta: map<Topic, Meta>

    ghost function View(): World
      reads this
    {
      World(outgoing, commands, threads, rows, meta)
    }

    /** Project the first item statement by statement, recording the protocol actions taken. */
    method ProjectFirst(items: seq<Item>, fault: nat -> bool, clock: nat)
      returns (ok: bool, clock': nat, ghost trace: seq<Action>)
      requires items != []
      modifies this`commands, this`threads, this`rows, this`meta
      ensures clock' >= clock
      ensures Run(Sys(old(View()), map[0 := Busy(items, AtRow)]), trace)
        == Sys(View(), if ok && |items| > 1 then map[0 := Busy(items[1..], AtRow)] else map[])
      ensures commands == if ok then WithMark(old(View()), items[0].event).commands else old(commands)
      ensures !ok && (forall n | n >= clock :: !fault(n)) ==>
        var k := FindRow(old(rows), items[0].payload.envelope);
        k.Some? && old(rows)[k.value].topic != items[0].payload.topic
    {
      ghost var s0, more := Sys(View(), map[0 := Busy(items, AtRow)]), [];
      ok, clock', trace := ProjectHistory(items, fault, clock);
      if !ok {
        return;
      }
      if items[0].payload.target.Some? {
        ok, clock', more := ProjectThread(items, fault, clock');
        RunConcat(s0, trace, more);
        trace := trace + more;
        if !ok {
          return;
        }
      }
      ok, clock', more := MarkFirst(items, fault, clock');
      RunConcat(s0, trace, more);
      trace := trace + more;
    }

    method MarkFirst(items: seq<Item>, fault: nat -> bool, clock: nat)
      returns (ok: bool, clock': nat, ghost trace: seq<Action>)
      requires items != []
      modifies this`commands
      ensures clock' >= clock
      ensures Run(Sys(old(View()), map[0 := Busy(items, AtMark)]), trace)
        == Sys(View(), if ok && |items| > 1 then map[0 := Busy(items[1..], AtRow)] else map[])
      ensures (forall n | n >= clock :: !fault(n)) ==> ok
      ensures commands == if ok then WithMark(old(View()), items[0].event).commands else old(commands)
    {
      ghost var s0 := Sys(View(), map[0 := Busy(items, AtMark)]);
      ok, clock' := !fault(clock), clock + 1;
      trace := [if ok then Advance(0) else Fail(0)];
      RunSnoc(s0, [], trace[0]);
      assert [] + trace == trace;
      if ok && 1 <= items[0].event <= |commands| {
        commands := commands[items[0].event - 1 := commands[items[0].event - 1].(complete := true)];
      }
    }

    /** Insert the history row unless it is there, checking its binding, and refresh the metadata of a new row. */
    method ProjectHistory(items: seq<Item>, fault: nat -> bool, clock: nat)
      returns (ok: bool, clock': nat, ghost trace: seq<Action>)
      requires items != []
      modifies this`rows, this`meta
      ensures clock' >= clock
      ensures Run(Sys(old(View()), map[0 := Busy(items, AtRow)]), trace)
        == Sys(View(), if ok then map[0 := Busy(items, AfterMeta(items[0].payload))] else map[])
      ensures !ok && (forall n | n >= clock :: !fault(n)) ==>
        var k := FindRow(old(rows), items[0].payload.envelope);
        k.Some? && old(rows)[k.value].topic != items[0].payload.topic
    {
      var p := items[0].payload;
      ghost var s0 := Sys(View(), map[0 := Busy(items, AtRow)]);
      trace := [];
      ok, clock' := false, clock;
      RunSnoc(s0, [], Fail(0));
      RunSnoc(s0, [], Advance(0));
      assert [] + [Fail(0)] == [Fail(0)] && [] + [Advance(0)] == [Advance(0)];
      if fault(clock') {
        trace := [Fail(0)];
        return;
      }
      clock' := clock' + 1;
      var found := FindRow(rows, p.envelope);
      if found.Some? {
        // Nothing was inserted: the binding of the existing row is read, which may fail too.
        if fault(clock') {
          trace := [Fail(0)];
          return;
        }
        trace := [Advance(0)];
        clock' := clock' + 1;
        ok := rows[found.value].topic == p.topic;
        return;
      }
      trace := [Advance(0)];
      rows := rows + [NewRow(p)];
      assert Run(s0, trace) == Sys(View(), map[0 := Busy(items, AtMeta)]);
      if fault(clock') {
        RunSnoc(s0, trace, Fail(0));
        trace := trace + [Fail(0)];
        return;
      }
      RunSnoc(s0, trace, Advance(0));
      trace := trace + [Advance(0)];
      meta := meta[p.topic := Meta(p.timestamp, p.body)];
      clock' := clock' + 1;
      ok := true;
    }

    /** The two thread statements. */
    method ProjectThread(items: seq<Item>, fault: nat -> bool, clock: nat)
      returns (ok: bool, clock': nat, ghost trace: seq<Action>)
      requires items != [] && items[0].payload.target.Some?
      modifies this`rows, this`threads
      ensures clock' >= clock
      ensures Run(Sys(old(View()), map[0 := Busy(items, AtTarget)]), trace)
        == Sys(View(), if ok then map[0 := Busy(items, AtMark)] else map[])
      ensures (forall n | n >= clock :: !fault(n)) ==> ok
    {
      var p := items[0].payload;
      ghost var s0 := Sys(View(), map[0 := Busy(items, AtTarget)]);
      trace := [];
      ok, clock' := false, clock;
      if fault(clock') {
        RunSnoc(s0, trace, Fail(0));
        trace := [Fail(0)];
        return;
      }
      RunSnoc(s0, trace, Advance(0));
      trace := trace + [Advance(0)];
      var found := FindRow(rows, p.envelope);
      if found.Some? {
        rows := rows[found.value := rows[found.value].(target := p.target)];
      }
      clock' := clock' + 1;
      assert Run(s0, trace) == Sys(View(), map[0 := Busy(items, AtThread)]);
      if fault(clock') {
        RunSnoc(s0, trace, Fail(0));
        trace := trace + [Fail(0)];
        return;
      }
      RunSnoc(s0, trace, Advance(0));
      trace := trace + [Advance(0)];
      if !HasThread(threads, p.messageHash) {
        threads := threads + [ThreadRow(p.messageHash, p.topic, p.timestamp, p.envelope, p.target.value)];
      }
      clock' := clock' + 1;
      ok := true;
    }

    /**
     One repair pass, stopping at the first error.  It is a run of the protocol; if nothing fails and the
     admitted envelopes differ it succeeds, and then nothing is pending and every admitted message is projected.
     */
    method RepairPendingTextProjections(fault: nat -> bool, clock: nat)
      returns (r: RepairOutcome, ghost trace: seq<Action>)
      requires WorldInv(View())
      modifies this`commands, this`threads, this`rows, this`meta
      ensures Run(Sys(old(View()), map[]), trace) == Sys(View(), map[])
      ensures WorldInv(View()) && Grows(old(View()), View()) && |commands| == |old(commands)|
      ensures (forall n | n >= clock :: !fault(n)) && UniqueEnvelopes(old(commands)) ==> r.Repaired?
      ensures r.Repaired? ==> r.count == |Pending(old(commands))| && Pending(commands) == []
      ensures r.Repaired? ==> forall i | 0 <= i < |commands| :: Projected(View(), commands[i].payload)
    {
      ghost var s0 := Sys(View(), map[]);
      BeginRun(s0.world);
      RepairStarts(s0.world);
      hide Run, WorldInv, Grows, Projected, InRepair;
      if fault(clock) {
        return RepairFailed, [];
      }
      var pending := Pending(commands);
      var repaired, tick: nat := 0, clock + 1;
      trace := [Begin(0)];
      while repaired < |pending|
        invariant 0 <= repaired <= |pending|
        invariant Run(s0, trace) == Sys(View(), Remaining(pending, repaired))
        invariant InRepair(s0.world, View(), pending, repaired) && tick >= clock
      {
        var ok;
        ghost var more;
        ok, tick, more := ProjectNext(pending, repaired, fault, tick, s0.world);
        RunConcat(s0, trace, more);
        trace := trace + more;
        if !ok {
          return RepairFailed, trace;
        }
        repaired := repaired + 1;
      }
      RepairEnds(s0.world, View(), pending);
      r := Repaired(repaired);
    }

    /** One round of the repair loop. */
    method ProjectNext(pending: seq<Item>, done: nat, fault: nat -> bool, clock: nat, ghost w0: World)
      returns (ok: bool, clock': nat, ghost trace: seq<Action>)
      requires done < |pending| && InRepair(w0, View(), pending, done)
      modifies this`commands, this`threads, this`rows, this`meta
      ensures clock' >= clock
      ensures Run(Sys(old(View()), Remaining(pending, done)), trace)
        == Sys(View(), if ok then Remaining(pending, done + 1) else map[])
      ensures WorldInv(View()) && Grows(w0, View()) && |commands| == |w0.commands|
      ensures ok ==> InRepair(w0, View(), pending, done + 1)
      ensures (forall n | n >= clock :: !fault(n)) && UniqueEnvelopes(w0.commands) ==> ok
    {
      ghost var w := View();
      var items := pending[done..];
      RepairReady(w0, w, pending, done);
      if fault(clock) {
        // The stored payload does not decode.
        DecodeFails(w, items);
        hide Run, WorldInv, Grows;
        return false, clock + 1, [Fail(0)];
      }
      ok, clock', trace := ProjectFirst(items, fault, clock + 1);
      hide Run, Next, WorldInv, Grows, MarkedSoFar;
      RunKeepsInv(Sys(w, map[0 := Busy(items, AtRow)]), trace);
      GrowsTransitive(w0, w, View());
      assert items[1..] == pending[done + 1..];
      if ok {
        MarkedNext(w0.commands, w, pending, done);
      }
    }

    /**
     Validate, admit, read back, and only then project. An answer is given exactly as specified; a send that
     got an error has done no more than its admission, and an accepted one stands even if its projection fails.
     */
    method SendText(r: Request, messageId: nat, now: nat, fault: nat -> bool)
      returns (outcome: SendOutcome, projected: bool, ghost trace: seq<Action>)
      requires WorldInv(View())
      modifies this
      ensures Run(Sys(old(View()), map[]), trace) == Sys(View(), map[]) && WorldInv(View())
      ensures outcome == Reply(old(View()), r, messageId, now, fault(0), fault(1)).1
      ensures !outcome.Accepted? ==> View() == Reply(old(View()), r, messageId, now, fault(0), fault(1)).0
      ensures outcome.Accepted? ==> StoredAs(View(), r, outcome)
      ensures outcome.Accepted? && projected ==> ShownAs(View(), outcome)
      ensures projected ==> outcome.Accepted?
      ensures var admitted := Admit(old(View()), r, messageId, now).0;
        outcome.Accepted? && UniqueEnvelopes(admitted.commands) && (forall n | n >= 2 :: !fault(n)) ==> projected
    {
      ghost var s0 := Sys(old(View()), map[]);
      SendFacts(s0.world, r, messageId, now);
      hide Admit, Run, WorldInv, Grows, Projected, Pending, Trim, StoredAs, ShownAs;
      if Trim(r.text) != [] && fault(0) {
        return AdmissionFailed, false, [];
      }
      var admission := AdmitOutgoing(r, messageId, now);
      trace := [Send(r, messageId, now)];
      if admission == EmptyText {
        return Blank, false, trace;
      }
      if admission == KeyTaken {
        return KeyReused, false, trace;
      }
      if fault(1) {
        return ReadBackFailed, false, trace;
      }
      var read := GetOutgoing(admission.event);
      if read == None {
        return Disappeared, false, trace;
      }
      outcome := Accepted(admission.event, read.value);
      ghost var w, more := View(), [];
      var repair;
      repair, more := RepairPendingTextProjections(fault, 2);
      RunConcat(s0, trace, more);
      trace := trace + more;
      projected := repair.Repaired?;
      StoredStays(w, View(), r, outcome);
      if projected {
        RepairShows(View(), r, outcome);
      }
    }

    /** Trim and sign, then look the key up and admit in one transaction. */
    method AdmitOutgoing(r: Request, messageId: nat, now: nat) returns (a: Admission)
      modifies this`outgoing, this`commands
      ensures (View(), a) == Admit(old(View()), r, messageId, now)
    {
      var text := Trim(r.text);
      if text == [] {
        return EmptyText;
      }
      var message, found := Message(text, r.target), FindKey(commands, r.key);
      if found.Some? {
        var i := found.value;
        if commands[i].topic != r.topic || commands[i].message != message {
          return KeyTaken;
        }
        return Admitted(i + 1);
      }
      var envelope := Envelope(messageId, message);
      outgoing := outgoing + [envelope];
      var payload := Payload(r.topic, now, text, envelope, message, r.target);
      commands := commands + [Command(r.key, r.topic, message, payload, false)];
      a := Admitted(|outgoing|);
    }

    method GetOutgoing(event: nat) returns (e: Option<Envelope>)
      ensures e == ReadBack(View(), event)
    {
      e := if 1 <= event <= |outgoing| then Some(outgoing[event - 1]) else None;
    }
  }

  lemma DecodeFails(w: World, items: seq<Item>)
    ensures Run(Sys(w, map[0 := Busy(items, AtRow)]), [Fail(0)]) == Sys(w, map[])
  {
    hide Admit, Execute, Pending;
    var s := Sys(w, map[0 := Busy(items, AtRow)]);
    RunSnoc(s, [], Fail(0));
    hide Run;
    assert [] + [Fail(0)] == [Fail(0)];
    assert s.workers - {0} == map[];
  }

  /** What a send does to the stores, as a run of the protocol. */
  lemma SendFacts(w: World, r: Request, messageId: nat, now: nat)
    requires WorldInv(w)
    ensures var (w', a) := Admit(w, r, messageId, now);
      && WorldInv(w') && Run(Sys(w, map[]), []) == Sys(w, map[])
      && Run(Sys(w, map[]), [Send(r, messageId, now)]) == Sys(w', map[])
      && (a.Admitted? && ReadBack(w', a.event).Some? ==>
            StoredAs(w', r, Accepted(a.event, ReadBack(w', a.event).value)))
  {
    AdmitKeeps(w, r, messageId, now);
    SendRuns(w, r, messageId, now);
    assert CommandsInv(w);
    hide Admit, WorldInv, CommandsInv, Grows, Trim, Run;
    if Admit(w, r, messageId, now).1.Admitted? {
      AdmittedIsStored(w, r, messageId, now);
    }
  }

  lemma SendRuns(w: World, r: Request, messageId: nat, now: nat)
    ensures Run(Sys(w, map[]), []) == Sys(w, map[])
    ensures Run(Sys(w, map[]), [Send(r, messageId, now)]) == Sys(Admit(w, r, messageId, now).0, map[])
  {
    hide Admit, Execute, Pending;
    RunSnoc(Sys(w, map[]), [], Send(r, messageId, now));
    assert [] + [Send(r, messageId, now)] == [Send(r, messageId, now)];
  }

  lemma StoredStays(w: World, w': World, r: Request, o: SendOutcome)
    requires Grows(w, w') && StoredAs(w, r, o)
    ensures StoredAs(w', r, o)
  {
    var i := o.event - 1;
    assert w'.commands[i].(complete := false) == w.commands[i].(complete := false);
  }

  lemma RepairShows(w: World, r: Request, o: SendOutcome)
    requires StoredAs(w, r, o) && Pending(w.commands) == []
    requires forall i | 0 <= i < |w.commands| :: Projected(w, w.commands[i].payload)
    ensures ShownAs(w, o)
  {
  }

  /** The repair worker after `done` items. */
  function Remaining(pending: seq<Item>, done: nat): map<nat, Worker> {
    if done < |pending| then map[0 := Busy(pending[done..], AtRow)] else map[]
  }

  /** The pass has marked its first `done` items. */
  ghost predicate MarkedSoFar(before: seq<Command>, commands: seq<Command>, pending: seq<Item>, done: nat) {
    && pending == Pending(before) && done <= |pending| && |before| == |commands|
    && (forall i | 0 <= i < |before| :: before[i].complete ==> commands[i].complete)
    && (forall k | 0 <= k < done :: 1 <= pending[k].event <= |commands| && commands[pending[k].event - 1].complete)
  }

  /** Mid-pass: the world has only grown, and the first `done` items are marked. */
  ghost predicate InRepair(w0: World, w: World, pending: seq<Item>, done: nat) {
    WorldInv(w0) && WorldInv(w) && Grows(w0, w) && MarkedSoFar(w0.commands, w.commands, pending, done)
  }

  lemma RepairStarts(w: World)
    requires WorldInv(w)
    ensures InRepair(w, w, Pending(w.commands), 0)
  {
  }

  lemma {:induction false} RepairEnds(w0: World, w: World, pending: seq<Item>)
    requires InRepair(w0, w, pending, |pending|)
    ensures WorldInv(w) && Grows(w0, w) && |w.commands| == |w0.commands| && pending == Pending(w0.commands)
    ensures Pending(w.commands) == [] && forall i | 0 <= i < |w.commands| :: Projected(w, w.commands[i].payload)
  {
    AllMarked(w0.commands, w.commands);
  }

  lemma {:induction false} MarkedNext(before: seq<Command>, w: World, pending: seq<Item>, done: nat)
    requires MarkedSoFar(before, w.commands, pending, done) && done < |pending|
    ensures MarkedSoFar(before, WithMark(w, pending[done].event).commands, pending, done + 1)
  {
    PendingSound(before);
    assert Incomplete(before, pending[done]);
  }

  lemma {:induction false} AllMarked(before: seq<Command>, commands: seq<Command>)
    requires MarkedSoFar(before, commands, Pending(before), |Pending(before)|)
    ensures forall i | 0 <= i < |commands| :: commands[i].complete
    ensures Pending(commands) == []
  {
    forall i | 0 <= i < |commands|
      ensures commands[i].complete
    {
      if !before[i].complete {
        var k := PendingComplete(before, i);
      }
    }
    NothingPending(commands);
  }

  lemma BeginRun(w: World)
    ensures Run(Sys(w, map[]), [Begin(0)]) == Sys(w, Remaining(Pending(w.commands), 0))
  {
  }

  lemma {:induction false} NothingPending(commands: seq<Command>)
    requires forall i | 0 <= i < |commands| :: commands[i].complete
    ensures Pending(commands) == []
  {
    if commands != [] {
      NothingPending(commands[..|commands| - 1]);
    }
  }

  /** Before each item the worker is in order, and with unique envelopes nothing can conflict. */
  lemma {:induction false} RepairReady(w0: World, w: World, pending: seq<Item>, done: nat)
    requires InRepair(w0, w, pending, done) && done < |pending|
    ensures Inv(Sys(w, map[0 := Busy(pending[done..], AtRow)]))
    ensures UniqueEnvelopes(w0.commands) && FindRow(w.rows, pending[done].payload.envelope).Some? ==>
      w.rows[FindRow(w.rows, pending[done].payload.envelope).value].topic == pending[done].payload.topic
  {
    PendingSound(w0.commands);
    forall k | done <= k < |pending|
      ensures ItemOk(w, pending[k])
    {
      assert Incomplete(w0.commands, pending[k]);
      var i := pending[k].event - 1;
      assert w.commands[i].(complete := false) == w0.commands[i].(complete := false);
    }
    var items := pending[done..];
    assert forall k | 0 <= k < |items| :: items[k] == pending[done + k];
    if UniqueEnvelopes(w0.commands) && FindRow(w.rows, pending[done].payload.envelope).Some? {
      UniqueKept(w0, w);
      NoConflict(w, pending[done]);
    }
  }

  lemma UniqueKept(w0: World, w: World)
    requires Grows(w0, w) && |w0.commands| == |w.commands| && UniqueEnvelopes(w0.commands)
    ensures UniqueEnvelopes(w.commands)
  {
  }

  lemma {:induction false} RunConcat(s: Sys, a: seq<Action>, b: seq<Action>)
    ensures Run(s, a + b) == Run(Run(s, a), b)
  {
    hide Next;
    if b == [] {
      assert a + b == a;
    } else {
      var n := |b| - 1;
      RunConcat(s, a, b[..n]);
      assert a + b == a + b[..n] + [b[n]] && b == b[..n] + [b[n]];
      RunSnoc(s, a + b[..n], b[n]);
    }
  }

  // ------------------------------------------------------------------
  // Thread rows are keyed by content
  // ------------------------------------------------------------------

  /** The thread table has a row of this command, under its own signed bytes and in its own conversation. */
  ghost predicate OwnThreadRow(w: World, i: nat)
    requires i < |w.commands|
  {
    var p := w.commands[i].payload;
    exists k | 0 <= k < |w.threads| :: w.threads[k].envelope == p.envelope && w.threads[k].topic == p.topic
  }

  /**
   Once everything is complete, every thread reply has a thread row of its own exactly if no two admitted
   thread replies have the same text and target; the row's key is the content hash alone, so it leaves out
   the signature and the conversation.
   */
  lemma {:induction false} OwnThreadRowsIff(w: World)
    requires WorldInv(w) && UniqueEnvelopes(w.commands)
    requires forall i | 0 <= i < |w.commands| :: w.commands[i].complete
    ensures (forall i | 0 <= i < |w.commands| && w.commands[i].message.target.Some? :: OwnThreadRow(w, i))
      <==> (forall i, j | 0 <= i < j < |w.commands| && w.commands[i].message.target.Some? ::
              w.commands[i].message != w.commands[j].message)
  {
    hide WorldInv, OwnThreadRow, UniqueEnvelopes;
    if forall i | 0 <= i < |w.commands| && w.commands[i].message.target.Some? :: OwnThreadRow(w, i) {
      forall i, j | 0 <= i < j < |w.commands| && w.commands[i].message.target.Some?
        ensures w.commands[i].message != w.commands[j].message
      {
        if w.commands[i].message == w.commands[j].message {
          SharedThreadRow(w, i, j);
        }
      }
    } else {
      var i :| 0 <= i < |w.commands| && w.commands[i].message.target.Some? && !OwnThreadRow(w, i);
      var j := OwnRowOrTwin(w, i);
    }
  }

  /** A completed thread reply without a row of its own has a twin whose row stands for it. */
  lemma OwnRowOrTwin(w: World, i: nat) returns (j: nat)
    requires WorldInv(w) && i < |w.commands| && w.commands[i].complete && w.commands[i].message.target.Some?
    requires !OwnThreadRow(w, i)
    ensures j < |w.commands| && j != i && w.commands[j].message == w.commands[i].message
  {
    assert CommandOk(w.commands[i]) && Projected(w, w.commands[i].payload);
    var k :| 0 <= k < |w.threads| && w.threads[k].messageHash == w.commands[i].message;
    assert ThreadAdmitted(w.commands, w.threads[k]);
    j :| 0 <= j < |w.commands| && IsThreadRowOf(w.threads[k], w.commands[j].payload);
    assert CommandOk(w.commands[j]) && w.commands[j].message == w.commands[i].message;
  }

  /** Two admitted thread replies with the same content never both have a row of their own. */
  lemma SharedThreadRow(w: World, i: nat, j: nat)
    requires WorldInv(w) && UniqueEnvelopes(w.commands) && i < j < |w.commands|
    requires w.commands[i].message == w.commands[j].message
    ensures !(OwnThreadRow(w, i) && OwnThreadRow(w, j))
  {
  }

  // The same reply sent twice under two keys, admitted, projected and completed without any failure.

  const TwinTarget: ThreadTarget := ThreadTarget(4, None)
  const Twin: Message := Message("re", Some(TwinTarget))
  const TwinActs: seq<Action> := [
    Send(Request(1, 7, "re", Some(TwinTarget)), 8, 5), Send(Request(2, 7, "re", Some(TwinTarget)), 9, 6), Begin(0),
    Advance(0), Advance(0), Advance(0), Advance(0), Advance(0),
    Advance(0), Advance(0), Advance(0), Advance(0), Advance(0)]

  function TwinPayload(i: nat): Payload { Payload(7, 4 + i, "re", Envelope(7 + i, Twin), Twin, Some(TwinTarget)) }

  function TwinCommand(i: nat, complete: bool): Command { Command(i, 7, Twin, TwinPayload(i), complete) }

  function TwinRow(i: nat, target: Option<ThreadTarget>): Row { Row(7, 4 + i, "re", Envelope(7 + i, Twin), target) }

  /** The state after `n` of the actions. */
  function TwinSys(n: nat): Sys {
    var done, rest := Some(TwinTarget), [Item(2, TwinPayload(2))];
    var both := [Item(1, TwinPayload(1))] + rest;
    var admitted := Fresh.(
      outgoing := [Envelope(8, Twin), Envelope(9, Twin)],
      commands := [TwinCommand(1, false), TwinCommand(2, false)]);
    var first := admitted.(
      rows := [TwinRow(1, done)], meta := map[7 := Meta(5, "re")],
      threads := [ThreadRow(Twin, 7, 5, Envelope(8, Twin), TwinTarget)]);
    var marked := first.(commands := [TwinCommand(1, true), TwinCommand(2, false)]);
    var second := marked.(rows := [TwinRow(1, done), TwinRow(2, done)], meta := map[7 := Meta(6, "re")]);
    match n
    case 0 => Start
    case 1 => Sys(Fresh.(outgoing := [Envelope(8, Twin)], commands := [TwinCommand(1, false)]), map[])
    case 2 => Sys(admitted, map[])
    case 3 => Sys(admitted, map[0 := Busy(both, AtRow)])
    case 4 => Sys(admitted.(rows := [TwinRow(1, None)]), map[0 := Busy(both, AtMeta)])
    case 5 => Sys(first.(rows := [TwinRow(1, None)], threads := []), map[0 := Busy(both, AtTarget)])
    case 6 => Sys(first.(threads := []), map[0 := Busy(both, AtThread)])
    case 7 => Sys(first, map[0 := Busy(both, AtMark)])
    case 8 => Sys(marked, map[0 := Busy(rest, AtRow)])
    case 9 => Sys(marked.(rows := [TwinRow(1, done), TwinRow(2, None)]), map[0 := Busy(rest, AtMeta)])
    case 10 => Sys(second.(rows := [TwinRow(1, done), TwinRow(2, None)]), map[0 := Busy(rest, AtTarget)])
    case 11 => Sys(second, map[0 := Busy(rest, AtThread)])
    case 12 => Sys(second, map[0 := Busy(rest, AtMark)])
    case _ => Sys(second.(commands := [TwinCommand(1, true), TwinCommand(2, true)]), map[])
  }

  lemma TwinAdmits(n: nat)
    requires n < 2
    ensures Next(TwinSys(n), TwinActs[n]) == TwinSys(n + 1)
  {
  }

  lemma TwinBegins()
    ensures Next(TwinSys(2), Begin(0)) == TwinSys(3)
  {
    var c := TwinSys(2).world.commands;
    assert c[..1] == [TwinCommand(1, false)] && c[..1][..0] == [];
    assert Pending(c[..1]) == [Item(1, TwinPayload(1))];
    assert Pending(c) == [Item(1, TwinPayload(1)), Item(2, TwinPayload(2))];
    hide Pending;
  }

  lemma TwinFirst(n: nat)
    requires 3 <= n < 8
    ensures Next(TwinSys(n), Advance(0)) == TwinSys(n + 1)
  {
    hide Admit, Pending;
    if n == 5 { assert FindRow([TwinRow(1, None)], Envelope(8, Twin)) == Some(0); }
  }

  lemma TwinSecond(n: nat)
    requires 8 <= n < 13
    ensures Next(TwinSys(n), Advance(0)) == TwinSys(n + 1)
  {
    hide Admit, Pending;
    var rows := TwinSys(n).world.rows;
    assert rows[..1] == [TwinRow(1, Some(TwinTarget))] && rows[..1][..0] == [];
    if n == 8 {
      assert FindRow(rows, Envelope(9, Twin)) == None;
    } else {
      assert FindRow(rows, Envelope(9, Twin)) == Some(1);
    }
    hide FindRow;
    var w := TwinSys(n).world;
    if n == 9 {
      assert w.meta[7 := Meta(6, "re")] == map[7 := Meta(6, "re")];
    } else if n == 10 {
      assert rows[1 := TwinRow(2, Some(TwinTarget))] == [TwinRow(1, Some(TwinTarget)), TwinRow(2, Some(TwinTarget))];
    } else if n == 11 {
      assert w.threads[0].messageHash == Twin;
    } else if n == 12 {
      assert w.commands[1 := TwinCommand(2, true)] == [TwinCommand(1, true), TwinCommand(2, true)];
      assert Next(TwinSys(n), Advance(0)).workers == map[];
    }
  }

  lemma {:induction false} TwinRun(n: nat)
    requires n <= 13
    ensures Run(Start, TwinActs[..n]) == TwinSys(n)
  {
    hide Next;
    if n > 0 {
      TwinRun(n - 1);
      RunPrefix(Start, TwinActs, n - 1);
      if n <= 2 {
        TwinAdmits(n - 1);
      } else if n == 3 {
        TwinBegins();
      } else if n <= 8 {
        TwinFirst(n - 1);
      } else {
        TwinSecond(n - 1);
      }
      hide Run, TwinSys;
    }
  }

  /** A run without any failure: both replies are complete, and the second has no thread row of its own. */
  lemma TwinRepliesShareARow()
    ensures var s := Run(Start, TwinActs);
      && s.workers == map[] && |s.world.commands| == 2 && s.world.commands[0].complete && s.world.commands[1].complete
      && s.world.commands[0].message == s.world.commands[1].message
      && OwnThreadRow(s.world, 0) && !OwnThreadRow(s.world, 1)
  {
    TwinRun(13);
    assert TwinActs[..13] == TwinActs;
    hide Run;
    var w := TwinSys(13).world;
    assert w.threads[0].envelope == w.commands[0].payload.envelope;
  }

  // ------------------------------------------------------------------
  // Conversation metadata
  // ------------------------------------------------------------------

  /** The action kills a worker between inserting a new row and refreshing the metadata. */
  ghost predicate StrikesAtMeta(s: Sys, a: Action) {
    match a
    case Fail(id) => id in s.workers && s.workers[id].stage == AtMeta
    case Crash => exists id | id in s.workers :: s.workers[id].stage == AtMeta
    case _ => false
  }

  /** Every conversation with history has metadata, or a worker about to write it. */
  ghost predicate MetaInv(s: Sys) {
    forall k | 0 <= k < |s.world.rows| :: MetaDue(s, s.world.rows[k].topic)
  }

  ghost predicate MetaDue(s: Sys, topic: Topic) {
    topic in s.world.meta || exists id :: AboutToWrite(s, id, topic)
  }

  predicate AboutToWrite(s: Sys, id: nat, topic: Topic) {
    && id in s.workers && s.workers[id].stage == AtMeta
    && s.workers[id].items != [] && s.workers[id].items[0].payload.topic == topic
  }

  function RowsOf(rows: seq<Row>, topic: Topic): nat {
    if rows == [] then 0 else RowsOf(rows[..|rows| - 1], topic) + if rows[|rows| - 1].topic == topic then 1 else 0
  }

  function Writers(s: Sys, topic: Topic): set<nat> { set id | id in s.workers && AboutToWrite(s, id, topic) }

  /** The action writes the metadata of `topic`. */
  function Writes(s: Sys, a: Action, topic: Topic): nat {
    if a.Advance? && AboutToWrite(s, a.id, topic) then 1 else 0
  }

  /** How many workers the action kills between a new row of `topic` and its metadata. */
  function Kills(s: Sys, a: Action, topic: Topic): nat {
    match a
    case Fail(id) => if AboutToWrite(s, id, topic) then 1 else 0
    case Crash => |Writers(s, topic)|
    case _ => 0
  }

  function Written(actions: seq<Action>, topic: Topic): nat {
    if actions == [] then 0
    else
      var before, a := actions[..|actions| - 1], actions[|actions| - 1];
      Written(before, topic) + Writes(Run(Start, before), a, topic)
  }

  function Struck(actions: seq<Action>, topic: Topic): nat {
    if actions == [] then 0
    else
      var before, a := actions[..|actions| - 1], actions[|actions| - 1];
      Struck(before, topic) + Kills(Run(Start, before), a, topic)
  }

  lemma {:induction false} RowsOfTargeted(rows: seq<Row>, k: nat, target: Option<ThreadTarget>, topic: Topic)
    requires k < |rows|
    ensures RowsOf(rows[k := rows[k].(target := target)], topic) == RowsOf(rows, topic)
  {
    var n := |rows| - 1;
    var changed := rows[k := rows[k].(target := target)];
    if k < n {
      RowsOfTargeted(rows[..n], k, target, topic);
      assert changed[..n] == rows[..n][k := rows[k].(target := target)];
    } else {
      assert changed[..n] == rows[..n];
    }
  }

  lemma WritersGain(s: Sys, s': Sys, id: nat, topic: Topic)
    requires forall j: nat | j != id :: AboutToWrite(s', j, topic) == AboutToWrite(s, j, topic)
    requires !AboutToWrite(s, id, topic) && AboutToWrite(s', id, topic)
    ensures |Writers(s', topic)| == |Writers(s, topic)| + 1
  {
    forall j: nat
      ensures j in Writers(s', topic) <==> j in Writers(s, topic) + {id}
    {
      WriterIs(s, j, topic);
      WriterIs(s', j, topic);
    }
    hide Writers, AboutToWrite;
    assert Writers(s', topic) == Writers(s, topic) + {id} && id !in Writers(s, topic) by { WriterIs(s, id, topic); }
  }

  lemma WriterIs(s: Sys, j: nat, topic: Topic)
    ensures j in Writers(s, topic) <==> AboutToWrite(s, j, topic)
  {
  }

  lemma WritersSame(s: Sys, s': Sys, topic: Topic)
    requires forall j: nat :: AboutToWrite(s', j, topic) == AboutToWrite(s, j, topic)
    ensures |Writers(s', topic)| == |Writers(s, topic)|
  {
    forall j: nat
      ensures j in Writers(s', topic) <==> j in Writers(s, topic)
    {
      WriterIs(s, j, topic);
      WriterIs(s', j, topic);
    }
    hide Writers, AboutToWrite;
    assert Writers(s', topic) == Writers(s, topic);
  }

  /** The worker's next statement inserts a new row of `topic`. */
  predicate InsertsRow(s: Sys, id: nat, topic: Topic) {
    && id in s.workers && s.workers[id].items != [] && s.workers[id].stage == AtRow
    && s.workers[id].items[0].payload.topic == topic
    && FindRow(s.world.rows, s.workers[id].items[0].payload.envelope).None?
  }

  lemma RowsAfter(s: Sys, id: nat, topic: Topic)
    requires id in s.workers && s.workers[id].items != []
    ensures RowsOf(Next(s, Advance(id)).world.rows, topic)
      == RowsOf(s.world.rows, topic) + if InsertsRow(s, id, topic) then 1 else 0
  {
    var p := s.workers[id].items[0].payload;
    var found := FindRow(s.world.rows, p.envelope);
    hide FindRow;
    if s.workers[id].stage == AtTarget && found.Some? {
      RowsOfTargeted(s.world.rows, found.value, p.target, topic);
    }
    assert (s.world.rows + [NewRow(p)])[..|s.world.rows|] == s.world.rows;
  }

  lemma WriterAfter(s: Sys, id: nat, topic: Topic)
    requires id in s.workers && s.workers[id].items != []
    ensures AboutToWrite(Next(s, Advance(id)), id, topic) <==> InsertsRow(s, id, topic)
    ensures AboutToWrite(s, id, topic) ==> !InsertsRow(s, id, topic)
    ensures forall j: nat | j != id :: AboutToWrite(Next(s, Advance(id)), j, topic) == AboutToWrite(s, j, topic)
    ensures topic in Next(s, Advance(id)).world.meta <==> topic in s.world.meta || AboutToWrite(s, id, topic)
  {
    hide FindRow;
  }

  /** One statement of a worker: a new row makes a writer, the metadata statement retires one. */
  lemma ExecuteCounts(s: Sys, id: nat, topic: Topic)
    requires id in s.workers && s.workers[id].items != []
    ensures var s' := Next(s, Advance(id));
      RowsOf(s'.world.rows, topic) + |Writers(s, topic)|
        == RowsOf(s.world.rows, topic) + |Writers(s', topic)| + Writes(s, Advance(id), topic)
    ensures topic in Next(s, Advance(id)).world.meta <==> topic in s.world.meta || Writes(s, Advance(id), topic) > 0
  {
    hide Next, Writers, AboutToWrite, InsertsRow, RowsOf;
    var s' := Next(s, Advance(id));
    RowsAfter(s, id, topic);
    WriterAfter(s, id, topic);
    if AboutToWrite(s, id, topic) {
      WritersGain(s', s, id, topic);
    } else if InsertsRow(s, id, topic) {
      WritersGain(s, s', id, topic);
    } else {
      WritersSame(s, s', topic);
    }
  }

  lemma ActionCounts(s: Sys, a: Action, topic: Topic)
    ensures var s' := Next(s, a);
      RowsOf(s'.world.rows, topic) + |Writers(s, topic)|
        == RowsOf(s.world.rows, topic) + |Writers(s', topic)| + Writes(s, a, topic) + Kills(s, a, topic)
    ensures topic in Next(s, a).world.meta <==> topic in s.world.meta || Writes(s, a, topic) > 0
  {
    var s' := Next(s, a);
    hide Admit, Pending;
    match a {
      case Advance(id) =>
        if id in s.workers && s.workers[id].items != [] { ExecuteCounts(s, id, topic); }
      case Fail(id) =>
        if AboutToWrite(s, id, topic) { WritersGain(s', s, id, topic); } else { WritersSame(s, s', topic); }
      case Crash => assert Writers(s', topic) == {};
      case _ => AdmitTouchesNoRow(s, a); WritersSame(s, s', topic);
    }
  }

  lemma AdmitTouchesNoRow(s: Sys, a: Action)
    requires a.Send? || a.Begin?
    ensures Next(s, a).world.rows == s.world.rows && Next(s, a).world.meta == s.world.meta
    ensures a.Send? ==> Next(s, a).workers == s.workers
  {
  }

  /** Every row is accounted for: its metadata was written, its worker was killed, or its worker is about to write. */
  lemma {:induction false} RowsAccounted(actions: seq<Action>, topic: Topic)
    ensures var s := Run(Start, actions);
      && RowsOf(s.world.rows, topic) == Written(actions, topic) + Struck(actions, topic) + |Writers(s, topic)|
      && (topic in s.world.meta <==> Written(actions, topic) > 0)
  {
    if actions == [] {
      assert Writers(Start, topic) == {};
    } else {
      var n := |actions| - 1;
      RowsAccounted(actions[..n], topic);
      ActionCounts(Run(Start, actions[..n]), actions[n], topic);
      hide Next, Writes, Kills, Writers, RowsOf;
    }
  }

  /**
   When an idle system has the metadata of a conversation: exactly if it has more history rows than workers
   were killed between inserting a row of it and writing the metadata.
   */
  lemma MetaPresentIff(actions: seq<Action>, topic: Topic)
    requires Run(Start, actions).workers == map[]
    ensures topic in Run(Start, actions).world.meta
      <==> RowsOf(Run(Start, actions).world.rows, topic) > Struck(actions, topic)
  {
    RowsAccounted(actions, topic);
    assert Writers(Run(Start, actions), topic) == {};
    hide Run, RowsOf, Struck, Written;
  }

  lemma {:induction false} RowCounts(rows: seq<Row>, k: nat)
    requires k < |rows|
    ensures RowsOf(rows, rows[k].topic) > 0
  {
    var n := |rows| - 1;
    if k < n { RowCounts(rows[..n], k); }
  }

  lemma {:induction false} NoStrikeNoLoss(actions: seq<Action>, topic: Topic)
    requires Unstruck(actions)
    ensures Struck(actions, topic) == 0
  {
    if actions != [] {
      var n := |actions| - 1;
      NoStrikeNoLoss(actions[..n], topic);
      var s := Run(Start, actions[..n]);
      assert actions[n].Crash? ==> Writers(s, topic) == {};
    }
  }

  /** No action of the run falls between the two statements. */
  ghost predicate Unstruck(actions: seq<Action>) {
    actions != [] ==>
      && Unstruck(actions[..|actions| - 1])
      && !StrikesAtMeta(Run(Start, actions[..|actions| - 1]), actions[|actions| - 1])
  }

  /** If no failure falls between the two statements, an idle system has metadata for every conversation. */
  lemma MetaComplete(actions: seq<Action>)
    requires Unstruck(actions)
    ensures MetaInv(Run(Start, actions))
    ensures var s := Run(Start, actions);
      s.workers == map[] ==> forall k | 0 <= k < |s.world.rows| :: s.world.rows[k].topic in s.world.meta
  {
    var s := Run(Start, actions);
    hide Run, Unstruck;
    forall k | 0 <= k < |s.world.rows|
      ensures MetaDue(s, s.world.rows[k].topic)
    {
      var topic := s.world.rows[k].topic;
      RowCounts(s.world.rows, k);
      RowsAccounted(actions, topic);
      NoStrikeNoLoss(actions, topic);
      if topic !in s.world.meta {
        var id :| id in Writers(s, topic);
        assert AboutToWrite(s, id, topic);
      }
    }
  }

  /**
   One failure in that gap loses the metadata: the row is there, so no repair of the commands already in
   the conversation ever writes it again.
   */
  lemma {:induction false} LostMetaStaysLost(s: Sys, actions: seq<Action>, topic: Topic)
    requires Inv(s) && topic !in s.world.meta && (forall id :: !AboutToWrite(s, id, topic))
    requires forall i | 0 <= i < |s.world.commands| && s.world.commands[i].topic == topic ::
      InHistory(s.world, s.world.commands[i].payload, false)
    requires forall i | 0 <= i < |actions| && actions[i].Send? :: actions[i].request.topic != topic
    ensures var s' := Run(s, actions);
      && Inv(s') && topic !in s'.world.meta && (forall id :: !AboutToWrite(s', id, topic))
      && (forall i | 0 <= i < |s'.world.commands| && s'.world.commands[i].topic == topic ::
            InHistory(s'.world, s'.world.commands[i].payload, false))
  {
    if actions != [] {
      var n := |actions| - 1;
      LostMetaStaysLost(s, actions[..n], topic);
      LostMetaStep(Run(s, actions[..n]), actions[n], topic);
    }
  }

  lemma {:induction false} LostMetaStep(s: Sys, a: Action, topic: Topic)
    requires Inv(s) && topic !in s.world.meta && (forall id :: !AboutToWrite(s, id, topic))
    requires forall i | 0 <= i < |s.world.commands| && s.world.commands[i].topic == topic ::
      InHistory(s.world, s.world.commands[i].payload, false)
    requires a.Send? ==> a.request.topic != topic
    ensures var s' := Next(s, a);
      && Inv(s') && topic !in s'.world.meta && (forall id :: !AboutToWrite(s', id, topic))
      && (forall i | 0 <= i < |s'.world.commands| && s'.world.commands[i].topic == topic ::
            InHistory(s'.world, s'.world.commands[i].payload, false))
  {
    NextKeepsInv(s, a);
    LostMetaQuiet(s, a, topic);
    AllInHistoryKept(s.world, Next(s, a).world, topic);
  }

  lemma {:induction false} LostMetaQuiet(s: Sys, a: Action, topic: Topic)
    requires CommandsInv(s.world) && (forall id | id in s.workers :: WorkerOk(s.world, s.workers[id]))
    requires topic !in s.world.meta && (forall id :: !AboutToWrite(s, id, topic))
    requires forall i | 0 <= i < |s.world.commands| && s.world.commands[i].topic == topic ::
      InHistory(s.world, s.world.commands[i].payload, false)
    requires a.Send? ==> a.request.topic != topic
    ensures var s' := Next(s, a);
      && topic !in s'.world.meta && (forall id :: !AboutToWrite(s', id, topic))
      && (forall i | |s.world.commands| <= i < |s'.world.commands| :: s'.world.commands[i].topic != topic)
  {
    var s' := Next(s, a);
    if a.Advance? && a.id in s.workers {
      LostMetaAdvance(s, a.id, topic);
    } else {
      forall id ensures !AboutToWrite(s', id, topic) {
        assert !AboutToWrite(s, id, topic);
      }
    }
  }

  lemma AllInHistoryKept(w: World, w': World, topic: Topic)
    requires CommandsInv(w) && RowsInv(w') && Grows(w, w')
    requires forall i | 0 <= i < |w.commands| && w.commands[i].topic == topic ::
      InHistory(w, w.commands[i].payload, false)
    requires forall i | |w.commands| <= i < |w'.commands| :: w'.commands[i].topic != topic
    ensures forall i | 0 <= i < |w'.commands| && w'.commands[i].topic == topic ::
      InHistory(w', w'.commands[i].payload, false)
  {
  }

  lemma {:induction false} LostMetaAdvance(s: Sys, id: nat, topic: Topic)
    requires id in s.workers && WorkerOk(s.world, s.workers[id]) && CommandsInv(s.world)
    requires topic !in s.world.meta && (forall j :: !AboutToWrite(s, j, topic))
    requires forall i | 0 <= i < |s.world.commands| && s.world.commands[i].topic == topic ::
      InHistory(s.world, s.world.commands[i].payload, false)
    ensures var s' := Next(s, Advance(id)); topic !in s'.world.meta && forall j :: !AboutToWrite(s', j, topic)
  {
    var s' := Next(s, Advance(id));
    var item := s.workers[id].items[0];
    assert ItemOk(s.world, item) && CommandOk(s.world.commands[item.event - 1]);
    assert !AboutToWrite(s, id, topic);
    if item.payload.topic == topic {
      assert InHistory(s.world, item.payload, false);
      var k :| 0 <= k < |s.world.rows| && s.world.rows[k].envelope == item.payload.envelope;
      assert FindRow(s.world.rows, item.payload.envelope).Some?;
    }
    assert !AboutToWrite(s', id, topic);
    forall j ensures !AboutToWrite(s', j, topic) {
      assert !AboutToWrite(s, j, topic);
    }
  }

  const ExampleSend: Action := Send(Request(1, 7, "hi", None), 9, 5)
  const ExamplePayload: Payload := Payload(7, 5, "hi", Envelope(9, Message("hi", None)), Message("hi", None), None)

  function ExampleWorld(complete: bool): World {
    World([Envelope(9, Message("hi", None))], [Command(1, 7, Message("hi", None), ExamplePayload, complete)], [],
          [NewRow(ExamplePayload)], map[])
  }

  /** The concrete run: row inserted, metadata statement fails, repair completes, metadata missing for good. */
  lemma {:induction false} MetaLostExample()
    ensures Run(Start, [ExampleSend, Begin(0), Advance(0), Fail(0)] + [Begin(0), Advance(0), Advance(0)])
      == Sys(ExampleWorld(true), map[])
    ensures var w := ExampleWorld(true);
      Pending(w.commands) == [] && w.rows[0].topic == 7 && 7 !in w.meta
  {
    var before, after := [ExampleSend, Begin(0), Advance(0), Fail(0)], [Begin(0), Advance(0), Advance(0)];
    RunConcat(Start, before, after);
    MetaFails(before);
    RepairSkipsMeta(after);
    NothingPending(ExampleWorld(true).commands);
  }

  lemma ExamplePending()
    ensures Pending(ExampleWorld(false).commands) == [Item(1, ExamplePayload)]
  {
  }

  lemma ExampleAdmission()
    ensures Next(Start, ExampleSend) == Sys(ExampleWorld(false).(rows := []), map[])
  {
  }

  const ExampleItems: seq<Item> := [Item(1, ExamplePayload)]

  /** The first worker: it begins, inserts the row, and fails before the metadata. */
  lemma FirstWorker()
    ensures var w := ExampleWorld(false);
      && Next(Sys(w.(rows := []), map[]), Begin(0)) == Sys(w.(rows := []), map[0 := Busy(ExampleItems, AtRow)])
      && Next(Sys(w.(rows := []), map[0 := Busy(ExampleItems, AtRow)]), Advance(0))
        == Sys(w, map[0 := Busy(ExampleItems, AtMeta)])
      && Next(Sys(w, map[0 := Busy(ExampleItems, AtMeta)]), Fail(0)) == Sys(w, map[])
  {
    ExamplePending();
    hide Admit, Pending;
    assert Next(Sys(ExampleWorld(false), map[0 := Busy(ExampleItems, AtMeta)]), Fail(0)).workers == map[];
  }

  /** The repair: it finds the row, skips the metadata with it, and marks the command complete. */
  lemma SecondWorker()
    ensures var w := ExampleWorld(false);
      && Next(Sys(w, map[]), Begin(0)) == Sys(w, map[0 := Busy(ExampleItems, AtRow)])
      && Next(Sys(w, map[0 := Busy(ExampleItems, AtRow)]), Advance(0)) == Sys(w, map[0 := Busy(ExampleItems, AtMark)])
      && Next(Sys(w, map[0 := Busy(ExampleItems, AtMark)]), Advance(0)) == Sys(ExampleWorld(true), map[])
  {
    ExamplePending();
    hide Admit, Pending;
    assert Next(Sys(ExampleWorld(false), map[0 := Busy(ExampleItems, AtMark)]), Advance(0)).workers == map[];
  }

  lemma {:induction false} MetaFails(acts: seq<Action>)
    requires acts == [ExampleSend, Begin(0), Advance(0), Fail(0)]
    ensures Run(Start, acts) == Sys(ExampleWorld(false), map[])
  {
    hide Next;
    ExampleAdmission();
    FirstWorker();
    RunPrefix(Start, acts, 0); RunPrefix(Start, acts, 1); RunPrefix(Start, acts, 2); RunPrefix(Start, acts, 3);
    assert acts[..4] == acts && acts[..0] == [];
  }

  lemma {:induction false} RepairSkipsMeta(acts: seq<Action>)
    requires acts == [Begin(0), Advance(0), Advance(0)]
    ensures Run(Sys(ExampleWorld(false), map[]), acts) == Sys(ExampleWorld(true), map[])
  {
    hide Next;
    SecondWorker();
    var s := Sys(ExampleWorld(false), map[]);
    RunPrefix(s, acts, 0); RunPrefix(s, acts, 1); RunPrefix(s, acts, 2);
    assert acts[..3] == acts && acts[..0] == [];
  }

  lemma RunPrefix(s: Sys, actions: seq<Action>, n: nat)
    requires n < |actions|
    ensures Run(s, actions[..n + 1]) == Next(Run(s, actions[..n]), actions[n])
  {
    assert actions[..n + 1][..n] == actions[..n];
  }

  // ------------------------------------------------------------------
  // What is shown is what was sent
  // ------------------------------------------------------------------

  ghost predicate Blanks(s: string) { forall i | 0 <= i < |s| :: s[i] in {' ', '\t', '\n', '\r'} }

  /** Trimming takes blanks off both ends and nothing else. */
  lemma {:induction false} TrimIs(s: string) returns (left: string, right: string)
    ensures s == left + Trim(s) + right && Blanks(left) && Blanks(right)
    ensures Trim(s) != [] ==> !Blanks([Trim(s)[0]]) && !Blanks([Trim(s)[|Trim(s)| - 1]])
  {
    left, right := [], [];
    if s != [] && IsSpace(s[0]) {
      left, right := TrimIs(s[1..]);
      left := [s[0]] + left;
      assert s == [s[0]] + s[1..];
    } else if s != [] && IsSpace(s[|s| - 1]) {
      left, right := TrimIs(s[..|s| - 1]);
      right := right + [s[|s| - 1]];
      assert s == s[..|s| - 1] + [s[|s| - 1]];
    } else if s != [] {
      assert [s[0]][0] == s[0] && [s[|s| - 1]][0] == s[|s| - 1];
    }
  }

  /** The message a send signs, and the row it is to appear as. */
  function SignedBy(a: Action): Envelope
    requires a.Send?
  {
    Envelope(a.messageId, Message(Trim(a.request.text), a.request.target))
  }

  function RowFor(a: Action): Row
    requires a.Send?
  {
    Row(a.request.topic, a.now, Trim(a.request.text), SignedBy(a), a.request.target)
  }

  function PayloadFor(a: Action): Payload
    requires a.Send?
  {
    Payload(a.request.topic, a.now, Trim(a.request.text), SignedBy(a), SignedBy(a).message, a.request.target)
  }

  /** The command was admitted by send `j`. */
  predicate AdmittedBy(actions: seq<Action>, c: Command, j: nat) {
    j < |actions| && actions[j].Send? && c.payload == PayloadFor(actions[j]) && c.key == actions[j].request.key
  }

  ghost predicate FromSend(actions: seq<Action>, c: Command) { exists j: nat :: AdmittedBy(actions, c, j) }

  lemma FromSendLater(actions: seq<Action>, a: Action, c: Command)
    requires FromSend(actions, c)
    ensures FromSend(actions + [a], c)
  {
    var j: nat :| AdmittedBy(actions, c, j);
    assert AdmittedBy(actions + [a], c, j);
  }

  lemma NextCommands(s: Sys, a: Action)
    ensures var was, now := s.world.commands, Next(s, a).world.commands;
      && |was| <= |now| <= |was| + 1
      && (forall i | 0 <= i < |was| :: now[i].(complete := false) == was[i].(complete := false))
      && (|now| > |was| ==> a.Send? && now[|was|].payload == PayloadFor(a) && now[|was|].key == a.request.key)
  {
    hide Pending, Trim, FindKey, FindRow;
  }

  /** Every stored command comes from a send, with its key, topic, time, trimmed text and target. */
  lemma {:induction false} CommandsAreSent(actions: seq<Action>)
    ensures forall i | 0 <= i < |Run(Start, actions).world.commands| ::
      FromSend(actions, Run(Start, actions).world.commands[i])
  {
    if actions != [] {
      var n := |actions| - 1;
      CommandsAreSent(actions[..n]);
      NextCommands(Run(Start, actions[..n]), actions[n]);
      assert actions == actions[..n] + [actions[n]];
      var before, after := Run(Start, actions[..n]).world.commands, Run(Start, actions).world.commands;
      hide Next, PayloadFor;
      forall i | 0 <= i < |after|
        ensures FromSend(actions, after[i])
      {
        if i < |before| {
          FromSendLater(actions[..n], actions[n], before[i]);
          var j: nat :| AdmittedBy(actions, before[i], j);
          assert AdmittedBy(actions, after[i], j);
        } else {
          assert AdmittedBy(actions, after[i], n);
        }
      }
    }
  }

  /** Send `j` accounts for this row: everything is as sent, the thread target possibly still to come. */
  predicate RowSentBy(actions: seq<Action>, r: Row, j: nat) {
    j < |actions| && actions[j].Send? && (r == RowFor(actions[j]) || r == RowFor(actions[j]).(target := None))
  }

  /** Nothing appears in the history but what was sent, with the topic, time, text and bytes of the send. */
  lemma {:induction false} RowsAreSent(actions: seq<Action>, k: nat)
    requires k < |Run(Start, actions).world.rows|
    ensures exists j: nat :: RowSentBy(actions, Run(Start, actions).world.rows[k], j)
  {
    var w := Run(Start, actions).world;
    ReachableInv(actions);
    CommandsAreSent(actions);
    hide Run, Trim;
    var r := w.rows[k];
    assert RowAdmitted(w.commands, r);
    var i :| 0 <= i < |w.commands| && NewRow(w.commands[i].payload) == r.(target := None);
    var j: nat :| AdmittedBy(actions, w.commands[i], j);
    assert RowSentBy(actions, r, j);
  }

  predicate ThreadSentBy(actions: seq<Action>, x: ThreadRow, j: nat) {
    && j < |actions| && actions[j].Send? && actions[j].request.target.Some?
    && x == ThreadRow(SignedBy(actions[j]).message, actions[j].request.topic, actions[j].now, SignedBy(actions[j]),
                      actions[j].request.target.value)
  }

  /** Nothing appears in the thread table but what was sent as a reply. */
  lemma {:induction false} ThreadsAreSent(actions: seq<Action>, k: nat)
    requires k < |Run(Start, actions).world.threads|
    ensures exists j: nat :: ThreadSentBy(actions, Run(Start, actions).world.threads[k], j)
  {
    var w := Run(Start, actions).world;
    ReachableInv(actions);
    CommandsAreSent(actions);
    hide Run, Trim;
    assert ThreadAdmitted(w.commands, w.threads[k]);
    var i :| 0 <= i < |w.commands| && IsThreadRowOf(w.threads[k], w.commands[i].payload);
    var j: nat :| AdmittedBy(actions, w.commands[i], j);
    assert ThreadSentBy(actions, w.threads[k], j);
  }

  predicate MetaSentBy(actions: seq<Action>, topic: Topic, m: Meta, j: nat) {
    && j < |actions| && actions[j].Send? && actions[j].request.topic == topic
    && m == Meta(actions[j].now, Trim(actions[j].request.text))
  }

  lemma NextMeta(s: Sys, a: Action, topic: Topic)
    requires Inv(s) && topic in Next(s, a).world.meta
    ensures (topic in s.world.meta && Next(s, a).world.meta[topic] == s.world.meta[topic])
      || exists i | 0 <= i < |s.world.commands| :: var p := s.world.commands[i].payload;
           p.topic == topic && Next(s, a).world.meta[topic] == Meta(p.timestamp, p.body)
  {
    hide Pending, Admit, FindRow, WorldInv;
    if a.Advance? && a.id in s.workers && s.workers[a.id].items != [] && s.workers[a.id].stage == AtMeta {
      var item := s.workers[a.id].items[0];
      assert WorkerOk(s.world, s.workers[a.id]);
      assert ItemOk(s.world, item);
      assert s.world.commands[item.event - 1].payload == item.payload;
    } else {
      AdmitTouchesNoMeta(s, a);
    }
  }

  lemma AdmitTouchesNoMeta(s: Sys, a: Action)
    requires !(a.Advance? && a.id in s.workers && s.workers[a.id].items != [] && s.workers[a.id].stage == AtMeta)
    ensures Next(s, a).world.meta == s.world.meta
  {
    hide Pending, FindKey, FindRow, Trim;
  }

  /** The metadata of a conversation is the time and text of a message sent to it. */
  lemma {:induction false} MetaIsSent(actions: seq<Action>, topic: Topic)
    requires topic in Run(Start, actions).world.meta
    ensures exists j: nat :: MetaSentBy(actions, topic, Run(Start, actions).world.meta[topic], j)
  {
    if actions != [] {
      var n := |actions| - 1;
      var s := Run(Start, actions[..n]);
      ReachableInv(actions[..n]);
      NextMeta(s, actions[n], topic);
      hide Next, Inv, Trim;
      if topic in s.world.meta && Run(Start, actions).world.meta[topic] == s.world.meta[topic] {
        MetaIsSent(actions[..n], topic);
        var j: nat :| MetaSentBy(actions[..n], topic, s.world.meta[topic], j);
        assert MetaSentBy(actions, topic, s.world.meta[topic], j);
      } else {
        CommandsAreSent(actions[..n]);
        var i :| 0 <= i < |s.world.commands| && s.world.commands[i].payload.topic == topic
          && var p := s.world.commands[i].payload; Run(Start, actions).world.meta[topic] == Meta(p.timestamp, p.body);
        var j: nat :| AdmittedBy(actions[..n], s.world.commands[i], j);
        assert MetaSentBy(actions, topic, Run(Start, actions).world.meta[topic], j);
      }
    }
  }

  /** A finished command is shown as its send asked for, thread target included. */
  lemma FinishedIsShown(actions: seq<Action>, i: nat)
    requires var w := Run(Start, actions).world; i < |w.commands| && w.commands[i].complete
    requires UniqueEnvelopes(Run(Start, actions).world.commands)
    ensures var w := Run(Start, actions).world;
      exists j: nat, k: nat :: AdmittedBy(actions, w.commands[i], j) && k < |w.rows| && w.rows[k] == RowFor(actions[j])
  {
    var w := Run(Start, actions).world;
    ReachableInv(actions);
    CommandsAreSent(actions);
    hide Run, Trim;
    var j: nat :| AdmittedBy(actions, w.commands[i], j);
    var p := w.commands[i].payload;
    assert Projected(w, p) && InHistory(w, p, true);
    var k: nat :| k < |w.rows| && w.rows[k].envelope == p.envelope && w.rows[k].topic == p.topic
      && w.rows[k].target == p.target;
    assert RowAdmitted(w.commands, w.rows[k]);
    var m :| 0 <= m < |w.commands| && NewRow(w.commands[m].payload) == w.rows[k].(target := None);
    assert m == i;
    assert w.rows[k] == RowFor(actions[j]);
  }
}
