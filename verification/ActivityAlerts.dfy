/**
 Activity alerts for connected companions (src/activity_alerts.rs): one alert per committed message, or one
 coalesced alert per conversation after a sync window. The sink is the list of alerts it received.
 */
module ActivityAlerts {
  import opened Basics

  type Conversation = nat
  type MessageId = nat

  datatype Origin = IncomingCommit | HistorySync | SendAcknowledgement

  datatype Alert = Alert(
    message: MessageId, conversation: Conversation, sender: nat, preview: string, coalesced: bool, count: nat)

  datatype State = State(
    connected: bool,
    enabled: bool,
    muted: set<Conversation>,
    authorized: Option<set<Conversation>>,
    seen: set<MessageId>,
    syncing: bool,
    missed: map<Conversation, (nat, Alert)>,
    emitted: seq<Alert>)

  const New: State := State(true, true, {}, None, {}, false, map[], [])

  /** `FinishSync` names the order in which the hash map happens to be walked. */
  datatype Op =
    | SetConnected(connected: bool)
    | SetEnabled(enabled: bool)
    | SetMuted(conversation: Conversation, muted: bool)
    | SetAuthorized(authorized: Option<set<Conversation>>)
    | BeginSync
    | FinishSync(order: seq<Conversation>)
    | Dispatch(origin: Origin, message: MessageId, conversation: Conversation, sender: nat, preview: string)

  predicate CanEmit(s: State) { s.connected && s.enabled }

  predicate CanEmitFor(s: State, c: Conversation) {
    CanEmit(s) && c !in s.muted && (s.authorized == None || c in s.authorized.value)
  }

  predicate Fresh(s: State, op: Op) {
    op.Dispatch? && op.origin == IncomingCommit && op.message !in s.seen
  }

  /** The dispatch returns true: an alert was emitted or retained. */
  predicate Accepts(s: State, op: Op) { Fresh(s, op) && CanEmitFor(s, op.conversation) }

  function AlertOf(op: Op): Alert
    requires op.Dispatch?
  {
    Alert(op.message, op.conversation, op.sender, op.preview, false, 1)
  }

  function MissedCount(s: State, c: Conversation): nat { if c in s.missed then s.missed[c].0 else 0 }

  function Coalesced(s: State, order: seq<Conversation>): seq<Alert> {
    if order == [] then []
    else
      var c := order[|order| - 1];
      Coalesced(s, order[..|order| - 1])
      + if c in s.missed then [s.missed[c].1.(coalesced := true, count := s.missed[c].0)] else []
  }

  function Step(s: State, op: Op): State {
    match op
    case SetConnected(b) => s.(connected := b)
    case SetEnabled(b) => s.(enabled := b)
    case SetMuted(c, b) => s.(muted := if b then s.muted + {c} else s.muted - {c})
    case SetAuthorized(a) => s.(authorized := a)
    case BeginSync => s.(syncing := true, missed := map[])
    case FinishSync(order) =>
      s.(syncing := false, missed := map[],
         emitted := if CanEmit(s) then s.emitted + Coalesced(s, order) else s.emitted)
    case Dispatch(_, message, c, _, _) =>
      if !Fresh(s, op) then s
      else
        var t := s.(seen := s.seen + {message});
        if !CanEmitFor(s, c) then t
        else if s.syncing then
          t.(missed := s.missed[c := (SaturatingSucc(MissedCount(s, c), U32_MAX), AlertOf(op))])
        else t.(emitted := s.emitted + [AlertOf(op)])
  }

  function RunFrom(s: State, ops: seq<Op>): State {
    if ops == [] then s else Step(RunFrom(s, ops[..|ops| - 1]), ops[|ops| - 1])
  }

  function Run(ops: seq<Op>): State { RunFrom(New, ops) }

  /** The walk visits every missed conversation once. */
  ghost predicate Enumerates(s: State, order: seq<Conversation>) {
    && (forall c :: c in s.missed <==> c in order)
    && (forall i, j | 0 <= i < j < |order| :: order[i] != order[j])
  }

  ghost predicate Legal(ops: seq<Op>) {
    ops != [] ==>
      && Legal(ops[..|ops| - 1])
      && (ops[|ops| - 1].FinishSync? ==> Enumerates(Run(ops[..|ops| - 1]), ops[|ops| - 1].order))
  }

  // ---- Each message once ----

  lemma {:induction false} SeenGrows(ops: seq<Op>, k: nat)
    requires k <= |ops|
    ensures Run(ops[..k]).seen <= Run(ops).seen
  {
    if k < |ops| {
      SeenGrows(ops[..|ops| - 1], k);
      assert ops[..|ops| - 1][..k] == ops[..k];
    } else {
      assert ops[..k] == ops;
    }
  }

  /** A message id is accepted at most once in a run. */
  lemma AcceptedOnce(ops: seq<Op>, i: nat, j: nat)
    requires i < j < |ops| && Accepts(Run(ops[..i]), ops[i]) && ops[j].Dispatch? && ops[j].message == ops[i].message
    ensures !Accepts(Run(ops[..j]), ops[j])
  {
    assert ops[..i + 1][..i] == ops[..i];
    assert ops[i].message in Run(ops[..i + 1]).seen;
    SeenGrows(ops[..j], i + 1);
    assert ops[..j][..i + 1] == ops[..i + 1];
  }

  // ---- The sync window ----

  lemma {:induction false} SilentWhileSyncing(s: State, ops: seq<Op>)
    requires s.syncing && forall i | 0 <= i < |ops| :: !ops[i].FinishSync?
    ensures RunFrom(s, ops).syncing && RunFrom(s, ops).emitted == s.emitted
  {
    if ops != [] {
      SilentWhileSyncing(s, ops[..|ops| - 1]);
    }
  }

  /** Retained alerts are filed under their own conversation, and only while syncing. */
  ghost predicate Filed(s: State) {
    && (forall c | c in s.missed :: s.missed[c].1.conversation == c)
    && (s.missed != map[] ==> s.syncing)
  }

  lemma {:induction false} RunFiled(ops: seq<Op>)
    ensures Filed(Run(ops))
  {
    if ops != [] {
      RunFiled(ops[..|ops| - 1]);
      assert Run(ops) == Step(Run(ops[..|ops| - 1]), ops[|ops| - 1]);
    }
  }

  /** Sum of the counts an alert list reports for one conversation. */
  function Reported(alerts: seq<Alert>, c: Conversation): nat {
    if alerts == [] then 0
    else
      var last := alerts[|alerts| - 1];
      Reported(alerts[..|alerts| - 1], c) + if last.conversation == c then last.count else 0
  }

  lemma {:induction false} ReportedAppend(a: seq<Alert>, b: seq<Alert>, c: Conversation)
    ensures Reported(a + b, c) == Reported(a, c) + Reported(b, c)
  {
    if b == [] {
      assert a + b == a;
    } else {
      ReportedAppend(a, b[..|b| - 1], c);
      assert (a + b)[..|a + b| - 1] == a + b[..|b| - 1];
    }
  }

  lemma {:induction false} CoalescedReports(s: State, order: seq<Conversation>, c: Conversation)
    requires Filed(s) && forall i, j | 0 <= i < j < |order| :: order[i] != order[j]
    ensures Reported(Coalesced(s, order), c) == if c in order then MissedCount(s, c) else 0
    ensures forall a | a in Coalesced(s, order) :: a.coalesced && a.conversation in order && a.conversation in s.missed
  {
    if order != [] {
      var n := |order| - 1;
      CoalescedReports(s, order[..n], c);
      assert order == order[..n] + [order[n]];
      var k := order[n];
      var last := if k in s.missed then [s.missed[k].1.(coalesced := true, count := s.missed[k].0)] else [];
      ReportedAppend(Coalesced(s, order[..n]), last, c);
      if last != [] {
        assert last[..0] == [] && Reported(last, c) == if last[0].conversation == c then last[0].count else 0;
      }
    }
  }

  /** Finishing a sync emits at most one alert per conversation. */
  lemma {:induction false} OneAlertPerConversation(s: State, order: seq<Conversation>)
    requires Filed(s) && forall i, j | 0 <= i < j < |order| :: order[i] != order[j]
    ensures var alerts := Coalesced(s, order);
      forall i, j | 0 <= i < j < |alerts| :: alerts[i].conversation != alerts[j].conversation
  {
    if order != [] {
      var n := |order| - 1;
      OneAlertPerConversation(s, order[..n]);
      CoalescedReports(s, order[..n], 0);
      var rest := Coalesced(s, order[..n]);
      forall i | 0 <= i < |rest|
        ensures rest[i].conversation != order[n]
      {
        assert rest[i] in rest;
      }
    }
  }

  // ---- Nothing is lost unaccounted ----

  function AcceptedFor(ops: seq<Op>, c: Conversation): nat {
    if ops == [] then 0
    else
      var before, op := ops[..|ops| - 1], ops[|ops| - 1];
      AcceptedFor(before, c) + if Accepts(Run(before), op) && op.conversation == c then 1 else 0
  }

  /** Retained counts thrown away: by a new sync window, or by finishing while nothing may be emitted. */
  function DiscardedFor(ops: seq<Op>, c: Conversation): nat {
    if ops == [] then 0
    else
      var before, op := ops[..|ops| - 1], ops[|ops| - 1];
      DiscardedFor(before, c)
      + if op.BeginSync? || (op.FinishSync? && !CanEmit(Run(before))) then MissedCount(Run(before), c) else 0
  }

  lemma {:induction false} MissedAtMostAccepted(ops: seq<Op>, c: Conversation)
    ensures MissedCount(Run(ops), c) <= |ops|
  {
    if ops != [] { MissedAtMostAccepted(ops[..|ops| - 1], c); }
  }

  /** How one call moves a conversation's counts between emitted, retained and discarded. */
  lemma StepConserves(s: State, op: Op, c: Conversation)
    requires Filed(s) && MissedCount(s, c) < U32_MAX && (op.FinishSync? ==> Enumerates(s, op.order))
    ensures Reported(Step(s, op).emitted, c) + MissedCount(Step(s, op), c)
        + (if op.BeginSync? || (op.FinishSync? && !CanEmit(s)) then MissedCount(s, c) else 0)
      == Reported(s.emitted, c) + MissedCount(s, c) + if Accepts(s, op) && op.conversation == c then 1 else 0
  {
    match op {
      case FinishSync(order) => FinishConserves(s, order, c);
      case Dispatch(_, _, _, _, _) => DispatchConserves(s, op, c);
      case _ =>
    }
  }

  lemma FinishConserves(s: State, order: seq<Conversation>, c: Conversation)
    requires Filed(s) && Enumerates(s, order)
    ensures Reported(Step(s, FinishSync(order)).emitted, c) + (if CanEmit(s) then 0 else MissedCount(s, c))
      == Reported(s.emitted, c) + MissedCount(s, c)
    ensures MissedCount(Step(s, FinishSync(order)), c) == 0
  {
    CoalescedReports(s, order, c);
    ReportedAppend(s.emitted, Coalesced(s, order), c);
    hide Reported, Coalesced;
  }

  lemma DispatchConserves(s: State, op: Op, c: Conversation)
    requires op.Dispatch? && MissedCount(s, c) < U32_MAX
    ensures Reported(Step(s, op).emitted, c) + MissedCount(Step(s, op), c)
      == Reported(s.emitted, c) + MissedCount(s, c) + if Accepts(s, op) && op.conversation == c then 1 else 0
  {
    assert (s.emitted + [AlertOf(op)])[..|s.emitted|] == s.emitted;
  }

  /**
   Conservation, conversation by conversation: the counts emitted, the counts retained for the end of the
   sync and the counts discarded add up to the accepted dispatches.
   */
  lemma {:induction false} CountsAreConserved(ops: seq<Op>, c: Conversation)
    requires Legal(ops) && |ops| <= U32_MAX
    ensures Reported(Run(ops).emitted, c) + MissedCount(Run(ops), c) + DiscardedFor(ops, c) == AcceptedFor(ops, c)
  {
    if ops != [] {
      var before, op := ops[..|ops| - 1], ops[|ops| - 1];
      CountsAreConserved(before, c);
      RunFiled(before);
      MissedAtMostAccepted(before, c);
      hide Step, Filed, Enumerates, Accepts;
      StepConserves(Run(before), op, c);
    }
  }

  // ---- Who is alerted, and about what ----

  // What the settings are, from the calls alone.

  function ConnectedBy(ops: seq<Op>): bool {
    if ops == [] then true
    else if ops[|ops| - 1].SetConnected? then ops[|ops| - 1].connected
    else ConnectedBy(ops[..|ops| - 1])
  }

  function EnabledBy(ops: seq<Op>): bool {
    if ops == [] then true
    else if ops[|ops| - 1].SetEnabled? then ops[|ops| - 1].enabled
    else EnabledBy(ops[..|ops| - 1])
  }

  function MutedBy(ops: seq<Op>, c: Conversation): bool {
    if ops == [] then false
    else if ops[|ops| - 1].SetMuted? && ops[|ops| - 1].conversation == c then ops[|ops| - 1].muted
    else MutedBy(ops[..|ops| - 1], c)
  }

  /** Without a grant set, or with an unrestricted one, every conversation is granted. */
  function GrantedBy(ops: seq<Op>, c: Conversation): bool {
    if ops == [] then true
    else if ops[|ops| - 1].SetAuthorized? then
      ops[|ops| - 1].authorized == None || c in ops[|ops| - 1].authorized.value
    else GrantedBy(ops[..|ops| - 1], c)
  }

  function SyncingBy(ops: seq<Op>): bool {
    if ops == [] then false
    else if ops[|ops| - 1].BeginSync? then true
    else if ops[|ops| - 1].FinishSync? then false
    else SyncingBy(ops[..|ops| - 1])
  }

  lemma {:induction false} SettingsAre(ops: seq<Op>, c: Conversation)
    ensures var s := Run(ops);
      && s.connected == ConnectedBy(ops) && s.enabled == EnabledBy(ops) && s.syncing == SyncingBy(ops)
      && (c in s.muted <==> MutedBy(ops, c))
      && ((s.authorized == None || c in s.authorized.value) <==> GrantedBy(ops, c))
  {
    if ops != [] {
      SettingsAre(ops[..|ops| - 1], c);
      assert Run(ops) == Step(Run(ops[..|ops| - 1]), ops[|ops| - 1]);
    }
  }

  /** An incoming message was dispatched before, whatever became of it. */
  ghost predicate Known(ops: seq<Op>, m: MessageId) {
    exists j | 0 <= j < |ops| :: ops[j].Dispatch? && ops[j].origin == IncomingCommit && ops[j].message == m
  }

  lemma {:induction false} SeenIs(ops: seq<Op>, m: MessageId)
    ensures m in Run(ops).seen <==> Known(ops, m)
  {
    if ops != [] {
      var n := |ops| - 1;
      SeenIs(ops[..n], m);
      assert Run(ops) == Step(Run(ops[..n]), ops[n]);
      if Known(ops[..n], m) {
        var j :| 0 <= j < n && ops[..n][j].Dispatch? && ops[..n][j].origin == IncomingCommit
          && ops[..n][j].message == m;
        assert ops[j] == ops[..n][j];
      }
      hide CanEmitFor;
    }
  }

  /** A dispatch is due for an alert: a new incoming message, connected, enabled, granted and not muted. */
  ghost predicate Due(ops: seq<Op>, op: Op) {
    && op.Dispatch? && op.origin == IncomingCommit && !Known(ops, op.message)
    && ConnectedBy(ops) && EnabledBy(ops) && !MutedBy(ops, op.conversation) && GrantedBy(ops, op.conversation)
  }

  /**
   Every dispatch of every run: one that is due emits its alert, or retains it while syncing; any other emits and
   retains nothing.
   */
  lemma DispatchIs(ops: seq<Op>, op: Op)
    requires op.Dispatch?
    ensures var s, t := Run(ops), Run(ops + [op]);
      var alert := Alert(op.message, op.conversation, op.sender, op.preview, false, 1);
      && (Accepts(s, op) <==> Due(ops, op))
      && (Due(ops, op) && !SyncingBy(ops) ==> t.emitted == s.emitted + [alert] && t.missed == s.missed)
      && (Due(ops, op) && SyncingBy(ops) ==>
            t.emitted == s.emitted && op.conversation in t.missed && t.missed[op.conversation].1 == alert
            && t.missed - {op.conversation} == s.missed - {op.conversation})
      && (!Due(ops, op) ==> t.emitted == s.emitted && t.missed == s.missed)
  {
    SettingsAre(ops, op.conversation);
    SeenIs(ops, op.message);
    assert (ops + [op])[..|ops|] == ops;
    hide Known, ConnectedBy, EnabledBy, MutedBy, GrantedBy, SyncingBy;
  }

  /** The alert is that of dispatch `j`, which was due; a coalesced one carries its count. */
  ghost predicate AlertFrom(ops: seq<Op>, a: Alert, j: nat) {
    && j < |ops| && Due(ops[..j], ops[j])
    && a.message == ops[j].message && a.conversation == ops[j].conversation
    && a.sender == ops[j].sender && a.preview == ops[j].preview
  }

  ghost predicate HasOrigin(ops: seq<Op>, a: Alert) { exists j: nat :: AlertFrom(ops, a, j) }

  lemma OriginLater(ops: seq<Op>, op: Op, a: Alert)
    requires HasOrigin(ops, a)
    ensures HasOrigin(ops + [op], a)
  {
    var j: nat :| AlertFrom(ops, a, j);
    assert (ops + [op])[..j] == ops[..j];
    hide Due;
    assert AlertFrom(ops + [op], a, j);
  }

  lemma {:induction false} CoalescedFrom(s: State, order: seq<Conversation>, a: Alert)
    requires a in Coalesced(s, order)
    ensures exists c :: c in s.missed && a == s.missed[c].1.(coalesced := true, count := s.missed[c].0)
  {
    var n := |order| - 1;
    if a in Coalesced(s, order[..n]) {
      CoalescedFrom(s, order[..n], a);
    } else {
      assert order[n] in s.missed;
    }
  }

  /** Every alert emitted or retained in any run tells of one dispatch that was due. */
  lemma {:induction false} AlertsHaveOrigins(ops: seq<Op>)
    ensures forall a | a in Run(ops).emitted :: HasOrigin(ops, a)
    ensures forall c | c in Run(ops).missed :: HasOrigin(ops, Run(ops).missed[c].1)
  {
    if ops != [] {
      var n := |ops| - 1;
      var before, op := ops[..n], ops[n];
      assert ops == before + [op];
      AlertsHaveOrigins(before);
      var s, t := Run(before), Run(ops);
      assert t == Step(s, op);
      forall a | HasOrigin(before, a)
        ensures HasOrigin(ops, a)
      {
        OriginLater(before, op, a);
      }
      if op.Dispatch? {
        DispatchIs(before, op);
        if Due(before, op) {
          DispatchedHaveOrigins(before, op);
        }
      } else if op.FinishSync? {
        forall a | a in Coalesced(s, op.order)
          ensures HasOrigin(ops, a)
        {
          CoalescedFrom(s, op.order, a);
          var c :| c in s.missed && a == s.missed[c].1.(coalesced := true, count := s.missed[c].0);
          var j: nat :| AlertFrom(ops, s.missed[c].1, j);
          assert AlertFrom(ops, a, j);
        }
      }
    }
  }

  lemma DispatchedHaveOrigins(ops: seq<Op>, op: Op)
    requires op.Dispatch? && Due(ops, op)
    ensures HasOrigin(ops + [op], Alert(op.message, op.conversation, op.sender, op.preview, false, 1))
  {
    assert (ops + [op])[..|ops|] == ops;
    hide Due;
    assert AlertFrom(ops + [op], Alert(op.message, op.conversation, op.sender, op.preview, false, 1), |ops|);
  }

  class ActivityAlertDispatcher {
    var connected: bool
    var enabled: bool
    var muted: set<Conversation>
    var authorized: Option<set<Conversation>>
    var seen: set<MessageId>
    var syncing: bool
    var missed: map<Conversation, (nat, Alert)>
    var emitted: seq<Alert>

    function View(): State
      reads this
    {
      State(connected, enabled, muted, authorized, seen, syncing, missed, emitted)
    }

    constructor ()
      ensures View() == New
    {
      connected, enabled, muted, authorized := true, true, {}, None;
      seen, syncing, missed, emitted := {}, false, map[], [];
    }

    method ChangeConnected(b: bool)
      modifies this`connected
      ensures View() == Step(old(View()), SetConnected(b))
    {
      connected := b;
    }

    method ChangeEnabled(b: bool)
      modifies this`enabled
      ensures View() == Step(old(View()), SetEnabled(b))
    {
      enabled := b;
    }

    method ChangeMuted(c: Conversation, b: bool)
      modifies this`muted
      ensures View() == Step(old(View()), SetMuted(c, b))
    {
      if b {
        muted := muted + {c};
      } else {
        muted := muted - {c};
      }
    }

    method ChangeAuthorized(conversations: Option<set<Conversation>>)
      modifies this`authorized
      ensures View() == Step(old(View()), SetAuthorized(conversations))
    {
      authorized := conversations;
    }

    method BeginInitialSync()
      modifies this
      ensures View() == Step(old(View()), BeginSync)
    {
      syncing := true;
      missed := map[];
    }

    /** The map is walked in some order. */
    method FinishInitialSync() returns (ghost order: seq<Conversation>)
      modifies this
      ensures Enumerates(old(View()), order) && View() == Step(old(View()), FinishSync(order))
    {
      ghost var s := View();
      syncing := false;
      var taken := missed;
      missed := map[];
      order := [];
      var left := taken.Keys;
      var alerts: seq<Alert> := [];
      while left != {}
        invariant left <= taken.Keys
        invariant forall c :: c in order <==> c in taken.Keys - left
        invariant forall i, j | 0 <= i < j < |order| :: order[i] != order[j]
        invariant alerts == Coalesced(s, order)
        decreases |left|
      {
        var c :| c in left;
        assert c !in order && forall i | 0 <= i < |order| :: order[i] in order;
        left := left - {c};
        assert (order + [c])[..|order|] == order;
        order := order + [c];
        alerts := alerts + [taken[c].1.(coalesced := true, count := taken[c].0)];
      }
      if connected && enabled {
        emitted := emitted + alerts;
      }
    }

    method DispatchCommitted(op: Op) returns (accepted: bool)
      requires op.Dispatch?
      modifies this
      ensures View() == Step(old(View()), op) && accepted == Accepts(old(View()), op)
    {
      if op.origin != IncomingCommit || op.message in seen {
        return false;
      }
      seen := seen + {op.message};
      var granted := authorized == None || op.conversation in authorized.value;
      if !(connected && enabled && op.conversation !in muted && granted) {
        return false;
      }
      if syncing {
        var count := if op.conversation in missed then missed[op.conversation].0 else 0;
        missed := missed[op.conversation := (SaturatingSucc(count, U32_MAX), AlertOf(op))];
      } else {
        emitted := emitted + [AlertOf(op)];
      }
      accepted := true;
    }
  }
}
