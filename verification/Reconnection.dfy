/**
 The companion client's reconnection coordinator (src/companion_reconnection.rs): connection states, bounded
 backoff, snapshot staging, drafts and pending operations. Times and durations are numbers of nanoseconds.
 */
module Reconnection {
  import opened Basics

  datatype Connection =
    | Unpaired
    | PendingApproval
    | Connecting
    | Syncing
    | Connected
    | OfflineRetrying
    | Revoked
    | Incompatible
  {
    predicate RetriesStopped() { Unpaired? || Revoked? || Incompatible? }
    predicate Terminal() { Revoked? || Incompatible? }
  }

  // ---- Backoff ----

  /** The longest `Duration`: the largest number of seconds and just under one more. */
  const DURATION_MAX: nat := U64_MAX * 1_000_000_000 + 999_999_999

  datatype Policy = Policy(initial: nat, maximum: nat, jitterMax: nat)

  ghost predicate Representable(p: Policy) {
    p.initial <= DURATION_MAX && p.maximum <= DURATION_MAX && p.jitterMax <= DURATION_MAX
  }

  function Pow2(n: nat): (r: nat)
    ensures r > 0
  {
    if n == 0 then 1 else 2 * Pow2(n - 1)
  }

  function Shift(failures: nat): nat { Min(if failures == 0 then 0 else failures - 1, 30) }

  /** `checked_mul` falls back to the maximum, `saturating_add` to the longest duration. */
  function Delay(p: Policy, failures: nat, jitter: nat): nat {
    var product := Pow2(Shift(failures)) * p.initial;
    var exponential := Min(if product > DURATION_MAX then p.maximum else product, p.maximum);
    Min(Min(exponential + Min(jitter, p.jitterMax), DURATION_MAX), p.maximum)
  }

  /** Overflow never shows: the delay is the doubled initial delay plus capped jitter, cut off at the maximum. */
  lemma DelayIs(p: Policy, failures: nat, jitter: nat)
    requires Representable(p)
    ensures Delay(p, failures, jitter)
      == Min(Pow2(Shift(failures)) * p.initial + Min(jitter, p.jitterMax), p.maximum)
  {
  }

  /** The factor: none after the first failure, doubled by each further one, up to 2^30. */
  lemma FactorDoubles(failures: nat)
    ensures failures <= 1 ==> Pow2(Shift(failures)) == 1
    ensures 1 < failures <= 31 ==> Pow2(Shift(failures)) == 2 * Pow2(Shift(failures - 1))
    ensures failures >= 31 ==> Pow2(Shift(failures)) == 0x4000_0000
  {
    if failures >= 31 {
      assert Pow2(10) == 1024;
      assert Pow2(20) == 1024 * Pow2(10) && Pow2(30) == 1024 * Pow2(20);
    }
  }

  lemma {:induction false} Pow2Monotone(a: nat, b: nat)
    requires a <= b
    ensures Pow2(a) <= Pow2(b)
  {
    if a < b { Pow2Monotone(a, b - 1); }
  }

  /** Never above the maximum, never below the initial delay, never shorter after more failures. */
  lemma DelayBounds(p: Policy, f: nat, g: nat, jitter: nat)
    requires Representable(p) && f <= g
    ensures Min(p.initial, p.maximum) <= Delay(p, f, jitter) <= Delay(p, g, jitter) <= p.maximum
  {
    DelayIs(p, f, jitter);
    DelayIs(p, g, jitter);
    hide Delay, Pow2, Shift;
    Pow2Monotone(Shift(f), Shift(g));
    MulMonotone(Pow2(Shift(f)), Pow2(Shift(g)), p.initial);
    MulMonotone(1, Pow2(Shift(f)), p.initial);
  }

  // ---- The coordinator ----

  datatype Snapshot = Snapshot(id: string, records: seq<string>)
  datatype Pending = Pending(registration: string, canonical: Option<string>)

  datatype State = State(
    connection: Connection,
    policy: Policy,
    failures: nat,
    nextRetry: Option<nat>,
    registration: Option<string>,
    authenticated: bool,
    caughtUp: bool,
    dataApplied: bool,
    lastSync: Option<nat>,
    generation: nat,
    cache: seq<string>,
    staged: Option<Snapshot>,
    drafts: map<string, string>,
    operations: map<string, Pending>)

  function New(p: Policy): State {
    State(Unpaired, Policy(p.initial, Max(p.maximum, p.initial), p.jitterMax), 0, None, None,
          false, false, false, None, 0, [], None, map[], map[])
  }

  datatype Op =
    | SetRegistration(id: string)
    | MarkPendingApproval
    | BeginConnecting
    | ProtocolIncompatible
    | Revoke
    | Authenticate
    | StageSnapshot(snapshot: Snapshot)
    | CompleteSnapshot(id: string)
    | CompleteChanges
    | CompleteCatchUp(now: nat)
    | ConnectionLost(now: nat, jitter: nat)
    | RetryImmediately(now: nat)
    | RetryDue(now: nat)
    | SaveDraft(id: string, text: string)
    | RegisterOperation(id: string)
    | ResolveOperation(id: string, canonical: string)

  /** The call returns true, or changes something if it returns nothing. */
  predicate Accepts(s: State, op: Op) {
    match op
    case BeginConnecting => s.registration.Some? && !s.connection.RetriesStopped()
    case Authenticate => s.connection.Connecting? || s.connection.OfflineRetrying?
    case StageSnapshot(_) => s.authenticated && s.connection.Syncing?
    case CompleteSnapshot(id) => s.staged.Some? && s.staged.value.id == id
    case CompleteChanges => s.authenticated && s.connection.Syncing?
    case CompleteCatchUp(_) => s.authenticated && s.connection.Syncing? && s.dataApplied
    case ConnectionLost(_, _) => !s.connection.RetriesStopped()
    case RetryImmediately(_) => s.registration.Some? && !s.connection.RetriesStopped()
    case RetryDue(now) =>
      s.connection.OfflineRetrying? && s.nextRetry.Some? && s.nextRetry.value <= now && s.registration.Some?
    case RegisterOperation(id) => s.registration.Some? && id !in s.operations
    case ResolveOperation(id, canonical) =>
      && id in s.operations && s.registration == Some(s.operations[id].registration)
      && s.operations[id].canonical in {None, Some(canonical)}
    case _ => true
  }

  function Begun(s: State): State {
    s.(connection := Connecting, nextRetry := None, authenticated := false, caughtUp := false, dataApplied := false)
  }

  function Step(s: State, op: Op): State {
    if !Accepts(s, op) then s else
    match op
    case SetRegistration(id) =>
      var t := if s.registration == Some(id) then s
               else s.(operations := map[], staged := None, caughtUp := false, dataApplied := false);
      t.(registration := Some(id), connection := if t.connection.Unpaired? then OfflineRetrying else t.connection)
    case MarkPendingApproval => s.(connection := PendingApproval, nextRetry := None)
    case BeginConnecting => Begun(s)
    case ProtocolIncompatible =>
      s.(connection := Incompatible, nextRetry := None, authenticated := false, caughtUp := false)
    case Revoke =>
      s.(connection := Revoked, nextRetry := None, authenticated := false, caughtUp := false,
         operations := map[], staged := None)
    case Authenticate => s.(authenticated := true, connection := Syncing, caughtUp := false, dataApplied := false)
    case StageSnapshot(snapshot) => s.(staged := Some(snapshot))
    case CompleteSnapshot(_) =>
      s.(staged := None, cache := s.staged.value.records, generation := Min(s.generation + 1, U64_MAX),
         dataApplied := true)
    case CompleteChanges => s.(dataApplied := true)
    case CompleteCatchUp(now) =>
      s.(caughtUp := true, connection := Connected, failures := 0, nextRetry := None, lastSync := Some(now))
    case ConnectionLost(now, jitter) =>
      var failures := Min(s.failures + 1, U32_MAX);
      s.(authenticated := false, caughtUp := false, dataApplied := false, failures := failures,
         connection := OfflineRetrying, nextRetry := Some(now + Delay(s.policy, failures, jitter)))
    case RetryImmediately(now) => s.(connection := OfflineRetrying, nextRetry := Some(now))
    case RetryDue(_) => Begun(s)
    case SaveDraft(id, text) => s.(drafts := s.drafts[id := text])
    case RegisterOperation(id) => s.(operations := s.operations[id := Pending(s.registration.value, None)])
    case ResolveOperation(id, canonical) =>
      s.(operations := s.operations[id := s.operations[id].(canonical := Some(canonical))])
  }

  function Run(s: State, ops: seq<Op>): State {
    if ops == [] then s else Step(Run(s, ops[..|ops| - 1]), ops[|ops| - 1])
  }

  /** The state before call `k`. */
  function At(s: State, ops: seq<Op>, k: nat): State
    requires k <= |ops|
  {
    Run(s, ops[..k])
  }

  predicate AcceptedAt(s: State, ops: seq<Op>, k: nat) {
    k < |ops| && Accepts(At(s, ops, k), ops[k])
  }

  lemma AtPrefix(s: State, ops: seq<Op>, k: nat)
    requires k < |ops|
    ensures At(s, ops, k + 1) == Step(At(s, ops, k), ops[k])
  {
    assert ops[..k + 1][..k] == ops[..k];
  }

  lemma AtEarlier(s: State, ops: seq<Op>, n: nat, k: nat)
    requires k <= n <= |ops|
    ensures At(s, ops[..n], k) == At(s, ops, k)
  {
    assert ops[..n][..k] == ops[..k];
  }

  /** How one call can reach, keep and leave each state. */
  lemma StepStates(s: State, op: Op)
    ensures Step(s, op).connection.Connected? && !s.connection.Connected? ==>
      op.CompleteCatchUp? && s.connection.Syncing? && s.dataApplied && Step(s, op).caughtUp
    ensures Step(s, op).connection.Syncing? && !s.connection.Syncing? ==>
      op.Authenticate? && Accepts(s, op) && !Step(s, op).dataApplied
    ensures (s.connection.Syncing? || s.connection.Connected? ==> s.authenticated) ==>
      (Step(s, op).connection.Syncing? || Step(s, op).connection.Connected? ==> Step(s, op).authenticated)
    ensures s.connection.Terminal() && !op.MarkPendingApproval? ==> Step(s, op).connection.Terminal()
  {
  }

  /** While syncing or connected, data and readiness change only by the calls named for it and by a new registration. */
  lemma StepFlags(s: State, op: Op)
    ensures Step(s, op).connection.Syncing? && s.connection.Syncing? ==>
      (Step(s, op).dataApplied <==>
        && (s.dataApplied || (DeliversData(op) && Accepts(s, op)))
        && !(op.SetRegistration? && s.registration != Some(op.id)))
    ensures Step(s, op).connection.Connected? && s.connection.Connected? ==>
      (Step(s, op).caughtUp <==> s.caughtUp && !(op.SetRegistration? && s.registration != Some(op.id)))
  {
  }

  lemma StepRetry(s: State, op: Op)
    requires s.nextRetry.Some? ==> s.connection.OfflineRetrying? || s.connection.Syncing?
    ensures Step(s, op).nextRetry.Some? ==> Step(s, op).connection.OfflineRetrying? || Step(s, op).connection.Syncing?
  {
  }

  /** How each state is entered: by these calls alone, and by them always. */
  lemma EntriesAre(s: State, op: Op)
    ensures var t := Step(s, op).connection;
      var stopped := s.connection in {Unpaired, Revoked, Incompatible};
      && (t != s.connection ==> t != Unpaired)
      && (t == PendingApproval && s.connection != PendingApproval ==> op == MarkPendingApproval)
      && (op == MarkPendingApproval ==> t == PendingApproval)
      && (t == Connecting && s.connection != Connecting ==> op == BeginConnecting || op.RetryDue?)
      && (op == BeginConnecting ==> t == if s.registration.Some? && !stopped then Connecting else s.connection)
      && (op.RetryDue? ==>
            var due := s.nextRetry.Some? && s.nextRetry.value <= op.now;
            t == if s.connection == OfflineRetrying && s.registration.Some? && due then Connecting else s.connection)
      && (t == Syncing && s.connection != Syncing ==> op == Authenticate)
      && (op == Authenticate ==> t == if s.connection in {Connecting, OfflineRetrying} then Syncing else s.connection)
      && (t == Connected && s.connection != Connected ==> op.CompleteCatchUp?)
      && (op.CompleteCatchUp? ==>
            t == if s.authenticated && s.connection == Syncing && s.dataApplied then Connected else s.connection)
  {
    hide Delay;
  }

  lemma LeavesAre(s: State, op: Op)
    ensures var t := Step(s, op);
      var stopped := s.connection in {Unpaired, Revoked, Incompatible};
      && (t.connection == OfflineRetrying && s.connection != OfflineRetrying ==>
            op.SetRegistration? || op.ConnectionLost? || op.RetryImmediately?)
      && (op.SetRegistration? ==> t.connection == if s.connection == Unpaired then OfflineRetrying else s.connection)
      && (op.ConnectionLost? ==>
            if stopped then t == s
            else t.connection == OfflineRetrying && !t.authenticated && !t.caughtUp && !t.dataApplied)
      && (op.RetryImmediately? ==>
            if stopped || s.registration == None then t == s
            else t == s.(connection := OfflineRetrying, nextRetry := Some(op.now)))
      && (t.connection == Revoked && s.connection != Revoked ==> op == Revoke)
      && (op == Revoke ==> t.connection == Revoked && t.operations == map[] && t.staged == None && t.nextRetry == None)
      && (t.connection == Incompatible && s.connection != Incompatible ==> op == ProtocolIncompatible)
      && (op == ProtocolIncompatible ==> t.connection == Incompatible && t.nextRetry == None)
      && (op in {Revoke, ProtocolIncompatible} ==> !t.authenticated && !t.caughtUp)
  {
    hide Delay;
  }

  // ---- Entries into Connected ----

  /** The latest accepted authentication is call `i`, and the client has been syncing ever since. */
  ghost predicate SyncingSince(s: State, ops: seq<Op>, i: nat) {
    && i < |ops| && ops[i].Authenticate? && AcceptedAt(s, ops, i)
    && forall k | i < k <= |ops| :: At(s, ops, k).connection.Syncing?
  }

  predicate DeliversData(op: Op) { op.CompleteSnapshot? || op.CompleteChanges? }

  predicate ChangesRegistration(s: State, ops: seq<Op>, k: nat)
    requires k < |ops|
  {
    ops[k].SetRegistration? && At(s, ops, k).registration != Some(ops[k].id)
  }

  /** Call `j` completed a snapshot or a change stream, and the registration is the same since. */
  ghost predicate DataSince(s: State, ops: seq<Op>, j: nat) {
    && j < |ops| && DeliversData(ops[j]) && AcceptedAt(s, ops, j)
    && forall k: nat | j < k < |ops| :: !ChangesRegistration(s, ops, k)
  }

  lemma SyncingExtends(s: State, ops: seq<Op>, i: nat)
    requires ops != [] && SyncingSince(s, ops[..|ops| - 1], i) && Run(s, ops).connection.Syncing?
    ensures SyncingSince(s, ops, i)
  {
    var n := |ops| - 1;
    AtEarlier(s, ops, n, i);
    assert ops[..|ops|] == ops;
    forall k | i < k <= |ops|
      ensures At(s, ops, k).connection.Syncing?
    {
      if k <= n {
        AtEarlier(s, ops, n, k);
      }
    }
  }

  lemma {:induction false} SyncingHasOrigin(s: State, ops: seq<Op>)
    requires !s.connection.Syncing? && Run(s, ops).connection.Syncing?
    ensures Run(s, ops).authenticated && exists i :: SyncingSince(s, ops, i)
  {
    if ops != [] {
      var n := |ops| - 1;
      var u := Run(s, ops[..n]);
      assert ops[..|ops|] == ops;
      StepStates(u, ops[n]);
      hide Step;
      if u.connection.Syncing? {
        SyncingHasOrigin(s, ops[..n]);
        var i: nat :| SyncingSince(s, ops[..n], i);
        SyncingExtends(s, ops, i);
      } else {
        assert SyncingSince(s, ops, n);
      }
    }
  }

  lemma {:induction false} AppliedHasOrigin(s: State, ops: seq<Op>, i: nat)
    requires SyncingSince(s, ops, i) && Run(s, ops).dataApplied
    ensures exists j: nat :: i < j && DataSince(s, ops, j)
  {
    var n := |ops| - 1;
    AtPrefix(s, ops, n);
    assert ops[..|ops|] == ops;
    StepStates(At(s, ops, n), ops[n]);
    StepFlags(At(s, ops, n), ops[n]);
    assert n > i;
    hide Step;
    if DeliversData(ops[n]) && AcceptedAt(s, ops, n) {
      assert DataSince(s, ops, n);
    } else {
      assert SyncingSince(s, ops[..n], i) by {
        forall k | i <= k <= n
          ensures At(s, ops[..n], k) == At(s, ops, k)
        {
          AtEarlier(s, ops, n, k);
        }
      }
      AppliedHasOrigin(s, ops[..n], i);
      var j: nat :| i < j && DataSince(s, ops[..n], j);
      DataExtends(s, ops, j);
    }
  }

  lemma DataExtends(s: State, ops: seq<Op>, j: nat)
    requires ops != [] && DataSince(s, ops[..|ops| - 1], j) && !ChangesRegistration(s, ops, |ops| - 1)
    ensures DataSince(s, ops, j)
  {
    var n := |ops| - 1;
    AtEarlier(s, ops, n, j);
    forall k: nat | j < k < |ops|
      ensures !ChangesRegistration(s, ops, k)
    {
      if k < n {
        AtEarlier(s, ops, n, k);
        assert !ChangesRegistration(s, ops[..n], k);
      }
    }
  }

  ghost predicate Earned(s: State, ops: seq<Op>, i: nat, j: nat) {
    i < j && SyncingSince(s, ops, i) && DataSince(s, ops, j)
  }

  /**
   Every entry into Connected, in every run: since the latest accepted authentication the client has been
   syncing without interruption, and since then, and since the last change of registration, a whole snapshot
   or change stream has been completed.
   */
  lemma ConnectedIsEarned(p: Policy, ops: seq<Op>, op: Op)
    requires !Run(New(p), ops).connection.Connected? && Step(Run(New(p), ops), op).connection.Connected?
    ensures op.CompleteCatchUp? && exists i, j :: Earned(New(p), ops, i, j)
  {
    StepStates(Run(New(p), ops), op);
    hide Step, Accepts;
    SyncingHasOrigin(New(p), ops);
    var i: nat :| SyncingSince(New(p), ops, i);
    AppliedHasOrigin(New(p), ops, i);
    var j: nat :| i < j && DataSince(New(p), ops, j);
    assert Earned(New(p), ops, i, j);
  }

  // ---- What Connected does and does not say ----

  ghost predicate ConnectedSince(s: State, ops: seq<Op>, c: nat) {
    && c < |ops| && ops[c].CompleteCatchUp? && AcceptedAt(s, ops, c)
    && forall k | c < k <= |ops| :: At(s, ops, k).connection.Connected?
  }

  /**
   "Connected" is documented as authenticated and caught up for the current registration. A Connected client
   is caught up exactly if the registration was not replaced since it connected.
   */
  lemma {:induction false} CaughtUpIff(s: State, ops: seq<Op>, c: nat)
    requires ConnectedSince(s, ops, c)
    ensures Run(s, ops).caughtUp <==> forall k: nat | c < k < |ops| :: !ChangesRegistration(s, ops, k)
  {
    var n := |ops| - 1;
    AtPrefix(s, ops, n);
    assert ops[..|ops|] == ops;
    StepStates(At(s, ops, n), ops[n]);
    StepFlags(At(s, ops, n), ops[n]);
    assert n == c ==> Run(s, ops).caughtUp;
    hide Step, Accepts;
    if n > c {
      var before := ops[..n];
      forall k: nat | k <= n
        ensures At(s, before, k) == At(s, ops, k)
        ensures k < n ==> ChangesRegistration(s, before, k) == ChangesRegistration(s, ops, k)
      {
        AtEarlier(s, ops, n, k);
      }
      assert ConnectedSince(s, before, c);
      CaughtUpIff(s, before, c);
      assert Run(s, ops).caughtUp <==> Run(s, before).caughtUp && !ChangesRegistration(s, ops, n);
      assert (forall k: nat | c < k < |ops| :: !ChangesRegistration(s, ops, k))
        <==> (forall k: nat | c < k < n :: !ChangesRegistration(s, before, k)) && !ChangesRegistration(s, ops, n);
    }
  }

  lemma {:induction false} ConnectedHasOrigin(s: State, ops: seq<Op>)
    requires !s.connection.Connected? && Run(s, ops).connection.Connected?
    ensures exists c :: ConnectedSince(s, ops, c)
  {
    if ops != [] {
      var n := |ops| - 1;
      assert ops[..|ops|] == ops;
      StepStates(Run(s, ops[..n]), ops[n]);
      if Run(s, ops[..n]).connection.Connected? {
        hide Step, Accepts;
        ConnectedHasOrigin(s, ops[..n]);
        var c: nat :| ConnectedSince(s, ops[..n], c);
        forall k: nat | k <= n
          ensures At(s, ops[..n], k) == At(s, ops, k)
        {
          AtEarlier(s, ops, n, k);
        }
        assert ConnectedSince(s, ops, c);
      } else {
        assert ConnectedSince(s, ops, n);
      }
    }
  }

  lemma StepRegistration(s: State, op: Op)
    ensures Step(s, op).registration != s.registration <==> op.SetRegistration? && s.registration != Some(op.id)
  {
    hide Delay;
  }

  /** The registration set last after call `i`, if any. */
  function LastSet(ops: seq<Op>, i: nat): Option<string> {
    if |ops| <= i + 1 then None
    else if ops[|ops| - 1].SetRegistration? then Some(ops[|ops| - 1].id)
    else LastSet(ops[..|ops| - 1], i)
  }

  lemma {:induction false} RegistrationIsLastSet(s: State, ops: seq<Op>, i: nat)
    requires i < |ops|
    ensures Run(s, ops).registration ==
      if LastSet(ops, i).Some? then LastSet(ops, i) else At(s, ops, i + 1).registration
  {
    var n := |ops| - 1;
    assert ops[..|ops|] == ops;
    if n > i {
      RegistrationIsLastSet(s, ops[..n], i);
      AtEarlier(s, ops, n, i + 1);
      StepRegistration(Run(s, ops[..n]), ops[n]);
      hide Step, At;
    }
  }

  /**
   The registration a client connects under is the one it authenticated under exactly if none was set since
   the authentication, or the last one set is that one again.
   */
  lemma ConnectedRegistrationIff(p: Policy, ops: seq<Op>, op: Op, i: nat)
    requires !Run(New(p), ops).connection.Connected? && Step(Run(New(p), ops), op).connection.Connected?
    requires SyncingSince(New(p), ops, i)
    ensures Step(Run(New(p), ops), op).registration == At(New(p), ops, i).registration
      <==> LastSet(ops, i) == None || LastSet(ops, i) == At(New(p), ops, i).registration
  {
    StepStates(Run(New(p), ops), op);
    StepRegistration(Run(New(p), ops), op);
    RegistrationIsLastSet(New(p), ops, i);
    AtPrefix(New(p), ops, i);
    StepRegistration(At(New(p), ops, i), ops[i]);
    hide Step, Run, At;
  }

  /** The registration set last, if any. */
  function LastId(ops: seq<Op>): Option<string> {
    if ops == [] then None
    else if ops[|ops| - 1].SetRegistration? then Some(ops[|ops| - 1].id)
    else LastId(ops[..|ops| - 1])
  }

  /** In every run the registration is the one set last, so there is one exactly if one was ever set. */
  lemma {:induction false} RegisteredIff(p: Policy, ops: seq<Op>)
    ensures Run(New(p), ops).registration == LastId(ops)
    ensures Run(New(p), ops).registration.Some? <==> exists k | 0 <= k < |ops| :: ops[k].SetRegistration?
  {
    if ops != [] {
      var n := |ops| - 1;
      RegisteredIff(p, ops[..n]);
      StepRegistration(Run(New(p), ops[..n]), ops[n]);
      hide Step;
      if exists k | 0 <= k < n :: ops[k].SetRegistration? {
        var k :| 0 <= k < n && ops[k].SetRegistration?;
        assert ops[..n][k].SetRegistration?;
      }
    }
  }

  /** Every Connected client authenticated at some call `i` and completed catch-up at a later call `c`. */
  ghost predicate Stages(s: State, ops: seq<Op>, i: nat, c: nat) {
    ConnectedSince(s, ops, c) && SyncingSince(s, ops[..c], i)
  }

  lemma ConnectedHasStages(p: Policy, ops: seq<Op>)
    requires Run(New(p), ops).connection.Connected?
    ensures exists i, c :: Stages(New(p), ops, i, c)
  {
    ConnectedHasOrigin(New(p), ops);
    var c: nat :| ConnectedSince(New(p), ops, c);
    SyncingHasOrigin(New(p), ops[..c]);
    var i: nat :| SyncingSince(New(p), ops[..c], i);
    assert Stages(New(p), ops, i, c);
  }

  /** What "Connected" is documented to say: authenticated and caught up for the current registration. */
  ghost predicate MeansConnected(s: State, ops: seq<Op>, i: nat)
    requires i <= |ops|
  {
    var t := Run(s, ops);
    t.registration.Some? && t.registration == At(s, ops, i).registration && t.caughtUp
  }

  /** Every registration set after call `c` is `id`. */
  ghost predicate AllSet(ops: seq<Op>, c: nat, id: Option<string>) {
    forall k | c < k < |ops| && ops[k].SetRegistration? :: Some(ops[k].id) == id
  }

  /**
   The same as conditions on the calls: a registration was set before the authentication `i`; of those set
   between it and the catch-up `c` the last is that one again; and those set afterwards are all that one.
   */
  ghost predicate OneRegistration(ops: seq<Op>, i: nat, c: nat)
    requires i <= c <= |ops|
  {
    && (exists k | 0 <= k < i :: ops[k].SetRegistration?)
    && LastSet(ops[..c], i) in {None, LastId(ops[..i])}
    && AllSet(ops, c, LastId(ops[..i]))
  }

  /** No call after `c` sets a registration other than the one before it. */
  ghost predicate NoneReplaced(ops: seq<Op>, c: nat) {
    forall k | c < k < |ops| && ops[k].SetRegistration? :: Some(ops[k].id) == LastId(ops[..k])
  }

  lemma {:induction false} NoneReplacedIff(ops: seq<Op>, c: nat)
    requires c < |ops| && !ops[c].SetRegistration?
    ensures NoneReplaced(ops, c) <==> AllSet(ops, c, LastId(ops[..c]))
    ensures NoneReplaced(ops, c) ==> LastId(ops) == LastId(ops[..c])
  {
    var n := |ops| - 1;
    if n > c {
      var before := ops[..n];
      NoneReplacedIff(before, c);
      assert before[..c] == ops[..c];
      assert forall k | 0 <= k < n :: before[k] == ops[k] && before[..k] == ops[..k];
    }
  }

  lemma ChangesAreSets(p: Policy, ops: seq<Op>, c: nat)
    ensures (forall k: nat | c < k < |ops| :: !ChangesRegistration(New(p), ops, k)) <==> NoneReplaced(ops, c)
  {
    forall k: nat | c < k < |ops|
      ensures ChangesRegistration(New(p), ops, k) <==> ops[k].SetRegistration? && LastId(ops[..k]) != Some(ops[k].id)
    {
      RegisteredIff(p, ops[..k]);
    }
  }

  /**
   A Connected client is authenticated and caught up for the registration it has exactly if its calls kept to
   one registration from before the authentication on.
   */
  lemma ConnectedMeansIff(p: Policy, ops: seq<Op>, i: nat, c: nat)
    requires Stages(New(p), ops, i, c)
    ensures MeansConnected(New(p), ops, i) <==> OneRegistration(ops, i, c)
  {
    var s := New(p);
    CaughtUpIff(s, ops, c);
    ChangesAreSets(p, ops, c);
    NoneReplacedIff(ops, c);
    RegisteredIff(p, ops);
    RegisteredIff(p, ops[..i]);
    RegisteredIff(p, ops[..c]);
    RegistrationIsLastSet(s, ops[..c], i);
    assert ops[..c][..i] == ops[..i] && ops[..c][..i + 1][..i] == ops[..i];
    StepRegistration(At(s, ops[..c], i), ops[i]);
    hide Step, Accepts, Run, LastId, LastSet;
  }

  /** A client authenticated under one registration connects under another it never authenticated for. */
  lemma ConnectedForAnotherRegistration(p: Policy)
    ensures var ops := [SetRegistration("a"), Authenticate, SetRegistration("b"), CompleteChanges];
      var t := Run(New(p), ops + [CompleteCatchUp(0)]);
      t.connection.Connected? && t.caughtUp && t.registration == Some("b")
  {
    RunFour(New(p), SetRegistration("a"), Authenticate, SetRegistration("b"), CompleteChanges);
    RunSnoc(New(p), [SetRegistration("a"), Authenticate, SetRegistration("b"), CompleteChanges], CompleteCatchUp(0));
    hide Run, Delay;
  }

  /** A client connects although no registration was ever set. */
  lemma ConnectedUnregistered(p: Policy)
    ensures var ops := [MarkPendingApproval, ConnectionLost(0, 0), Authenticate, CompleteChanges];
      var t := Run(New(p), ops + [CompleteCatchUp(0)]);
      t.connection.Connected? && t.caughtUp && t.registration == None
  {
    RunFour(New(p), MarkPendingApproval, ConnectionLost(0, 0), Authenticate, CompleteChanges);
    RunSnoc(New(p), [MarkPendingApproval, ConnectionLost(0, 0), Authenticate, CompleteChanges], CompleteCatchUp(0));
    hide Run, Delay;
  }

  /** A client stays Connected without having caught up for the registration that replaced its own. */
  lemma ConnectedNotCaughtUp(p: Policy)
    ensures var ops := [SetRegistration("a"), Authenticate, CompleteChanges, CompleteCatchUp(0)];
      var t := Run(New(p), ops + [SetRegistration("b")]);
      t.connection.Connected? && !t.caughtUp && t.registration == Some("b")
  {
    RunFour(New(p), SetRegistration("a"), Authenticate, CompleteChanges, CompleteCatchUp(0));
    RunSnoc(New(p), [SetRegistration("a"), Authenticate, CompleteChanges, CompleteCatchUp(0)], SetRegistration("b"));
    hide Run, Delay;
  }

  lemma RunSnoc(s: State, ops: seq<Op>, op: Op)
    ensures Run(s, ops + [op]) == Step(Run(s, ops), op)
  {
    hide Step;
    assert (ops + [op])[..|ops|] == ops;
  }

  lemma RunFour(s: State, a: Op, b: Op, c: Op, d: Op)
    ensures Run(s, [a, b, c, d]) == Step(Step(Step(Step(s, a), b), c), d)
  {
    hide Step;
    var ops := [a, b, c, d];
    assert ops[..3] == [a, b, c] && ops[..3][..2] == [a, b] && ops[..3][..2][..1] == [a];
    assert Run(s, [a]) == Step(s, a);
    assert Run(s, ops[..3][..2]) == Step(Step(s, a), b);
    assert Run(s, ops[..3]) == Step(Step(Step(s, a), b), c);
  }

  // ---- Terminal states ----

  /** From Revoked or Incompatible, without a new pairing claim, no sequence of calls connects or schedules a retry. */
  lemma {:induction false} TerminalStays(s: State, ops: seq<Op>)
    requires s.connection.Terminal() && s.nextRetry == None
    requires MarkPendingApproval !in ops
    ensures Run(s, ops).connection.Terminal() && Run(s, ops).nextRetry == None
  {
    if ops != [] {
      TerminalStays(s, ops[..|ops| - 1]);
      var u, op := Run(s, ops[..|ops| - 1]), ops[|ops| - 1];
      StepStates(u, op);
      StepRetry(u, op);
      hide Step;
    }
  }

  /** Terminal states never hold a scheduled retry, and a retry is pending only while offline or syncing. */
  lemma {:induction false} RetryOnlyOffline(p: Policy, ops: seq<Op>)
    ensures var s := Run(New(p), ops);
      s.nextRetry.Some? ==> s.connection.OfflineRetrying? || s.connection.Syncing?
  {
    if ops != [] {
      RetryOnlyOffline(p, ops[..|ops| - 1]);
      StepRetry(Run(New(p), ops[..|ops| - 1]), ops[|ops| - 1]);
      hide Step;
    }
  }

  /** `n` losses in a row after `s` schedule the retry `n` steps up the backoff ladder. */
  lemma {:induction false} LossesBackOff(s: State, ops: seq<Op>)
    requires !s.connection.RetriesStopped() && ops != [] && s.failures + |ops| <= U32_MAX
    requires forall i | 0 <= i < |ops| :: ops[i].ConnectionLost?
    ensures var t, last := Run(s, ops), ops[|ops| - 1];
      && t.connection.OfflineRetrying? && t.policy == s.policy && t.failures == s.failures + |ops|
      && t.nextRetry == Some(last.now + Delay(s.policy, s.failures + |ops|, last.jitter))
  {
    hide Delay;
    if |ops| > 1 {
      LossesBackOff(s, ops[..|ops| - 1]);
    } else {
      assert ops[..0] == [];
    }
  }

  // ---- When a retry is due ----

  /** A call that neither ends the wait for a scheduled retry nor moves it. */
  predicate Waits(op: Op, due: nat) {
    match op
    case SetRegistration(_) => true
    case StageSnapshot(_) => true
    case CompleteSnapshot(_) => true
    case CompleteChanges => true
    case CompleteCatchUp(_) => true
    case RetryDue(t) => t < due
    case SaveDraft(_, _) => true
    case RegisterOperation(_) => true
    case ResolveOperation(_, _) => true
    case _ => false
  }

  lemma WaitStep(s: State, op: Op, due: nat)
    requires s.connection.OfflineRetrying? && s.nextRetry == Some(due) && Waits(op, due)
    ensures Step(s, op).connection.OfflineRetrying? && Step(s, op).nextRetry == Some(due)
  {
    hide Delay;
  }

  lemma {:induction false} WaitRun(s: State, ops: seq<Op>, due: nat)
    requires s.connection.OfflineRetrying? && s.nextRetry == Some(due)
    requires forall i | 0 <= i < |ops| :: Waits(ops[i], due)
    ensures Run(s, ops).connection.OfflineRetrying? && Run(s, ops).nextRetry == Some(due)
  {
    if ops != [] {
      WaitRun(s, ops[..|ops| - 1], due);
      WaitStep(Run(s, ops[..|ops| - 1]), ops[|ops| - 1], due);
      hide Step;
    }
  }

  /**
   After a loss the client waits for the instant scheduled: until then no tick starts a connection, whatever other
   calls come, and the first tick from then on does if there is a registration.
   */
  lemma RetryWaits(s: State, now: nat, jitter: nat, ops: seq<Op>, t: nat)
    requires !s.connection.RetriesStopped()
    requires forall i | 0 <= i < |ops| ::
      Waits(ops[i], now + Delay(s.policy, Min(s.failures + 1, U32_MAX), jitter))
    ensures var due := now + Delay(s.policy, Min(s.failures + 1, U32_MAX), jitter);
      var u := Run(Step(s, ConnectionLost(now, jitter)), ops);
      && u.connection.OfflineRetrying? && u.nextRetry == Some(due)
      && (t < due || u.registration == None ==> Step(u, RetryDue(t)) == u)
      && (t >= due && u.registration.Some? ==>
            Step(u, RetryDue(t)).connection.Connecting? && Step(u, RetryDue(t)).nextRetry == None)
  {
    hide Delay, Run;
    var due := now + Delay(s.policy, Min(s.failures + 1, U32_MAX), jitter);
    WaitRun(Step(s, ConnectionLost(now, jitter)), ops, due);
  }

  // ---- Counters and times, from the accepted calls ----

  ghost predicate LastCatchUp(s: State, ops: seq<Op>, k: nat) {
    && k < |ops| && ops[k].CompleteCatchUp? && AcceptedAt(s, ops, k)
    && forall j: nat | k < j < |ops| && ops[j].CompleteCatchUp? :: !AcceptedAt(s, ops, j)
  }

  /** The accepted losses from call `k` on. */
  function LossesFrom(s: State, ops: seq<Op>, k: nat): nat {
    if |ops| <= k then 0
    else
      var before, op := ops[..|ops| - 1], ops[|ops| - 1];
      LossesFrom(s, before, k) + if op.ConnectionLost? && Accepts(Run(s, before), op) then 1 else 0
  }

  lemma StepCounters(s: State, op: Op)
    ensures Step(s, op).lastSync == if op.CompleteCatchUp? && Accepts(s, op) then Some(op.now) else s.lastSync
    ensures Step(s, op).failures ==
      if op.CompleteCatchUp? && Accepts(s, op) then 0
      else if op.ConnectionLost? && Accepts(s, op) then Min(s.failures + 1, U32_MAX)
      else s.failures
  {
    hide Delay;
  }

  /** The last sync is the time of the last catch-up, and the failures are the losses since. */
  lemma {:induction false} SinceCatchUp(s: State, ops: seq<Op>, k: nat)
    requires LastCatchUp(s, ops, k) && |ops| <= U32_MAX
    ensures Run(s, ops).lastSync == Some(ops[k].now)
    ensures Run(s, ops).failures == LossesFrom(s, ops, k + 1) <= |ops| - k - 1
  {
    var n := |ops| - 1;
    assert ops[..|ops|] == ops;
    StepCounters(At(s, ops, n), ops[n]);
    hide Step;
    if n > k {
      hide Accepts;
      forall j: nat | j < n
        ensures AcceptedAt(s, ops[..n], j) == AcceptedAt(s, ops, j)
      {
        AtEarlier(s, ops, n, j);
      }
      assert LastCatchUp(s, ops[..n], k);
      SinceCatchUp(s, ops[..n], k);
    }
  }

  /** Without a catch-up there is no last sync, and every loss counts. */
  lemma {:induction false} BeforeCatchUp(p: Policy, ops: seq<Op>)
    requires |ops| <= U32_MAX
    requires forall j: nat | j < |ops| && ops[j].CompleteCatchUp? :: !AcceptedAt(New(p), ops, j)
    ensures Run(New(p), ops).lastSync == None
    ensures Run(New(p), ops).failures == LossesFrom(New(p), ops, 0) <= |ops|
  {
    if ops != [] {
      var n := |ops| - 1;
      StepCounters(At(New(p), ops, n), ops[n]);
      hide Step;
      assert !(ops[n].CompleteCatchUp? && AcceptedAt(New(p), ops, n));
      hide Accepts;
      forall j: nat | j < n
        ensures AcceptedAt(New(p), ops[..n], j) == AcceptedAt(New(p), ops, j)
      {
        AtEarlier(New(p), ops, n, j);
      }
      BeforeCatchUp(p, ops[..n]);
    }
  }

  // ---- Pending operations ----

  ghost predicate OwnOperations(s: State) {
    forall id | id in s.operations :: s.registration == Some(s.operations[id].registration)
  }

  lemma StepOperations(s: State, op: Op)
    requires OwnOperations(s)
    ensures OwnOperations(Step(s, op))
  {
  }

  lemma {:induction false} OperationsBelong(p: Policy, ops: seq<Op>)
    ensures OwnOperations(Run(New(p), ops))
  {
    if ops != [] {
      OperationsBelong(p, ops[..|ops| - 1]);
      StepOperations(Run(New(p), ops[..|ops| - 1]), ops[|ops| - 1]);
      hide Step, OwnOperations;
    }
  }

  function CanonicalId(s: State, id: string): Option<string> {
    if id in s.operations then s.operations[id].canonical else None
  }

  /** The calls that forget pending operations. */
  predicate Forgets(s: State, op: Op) {
    op.Revoke? || (op.SetRegistration? && s.registration != Some(op.id))
  }

  lemma StepCanonical(s: State, op: Op, id: string)
    requires CanonicalId(s, id).Some? && !Forgets(s, op)
    ensures CanonicalId(Step(s, op), id) == CanonicalId(s, id)
  {
  }

  /** Once resolved, an operation keeps its canonical message id until the operations are forgotten as a whole. */
  lemma {:induction false} CanonicalWriteOnce(s: State, ops: seq<Op>, id: string)
    requires CanonicalId(s, id).Some?
    requires forall k | 0 <= k < |ops| :: !Forgets(At(s, ops, k), ops[k])
    ensures CanonicalId(Run(s, ops), id) == CanonicalId(s, id)
  {
    if ops != [] {
      var n := |ops| - 1;
      forall k | 0 <= k < n
        ensures !Forgets(At(s, ops[..n], k), ops[..n][k])
      {
        AtEarlier(s, ops, n, k);
        assert !Forgets(At(s, ops, k), ops[k]);
      }
      CanonicalWriteOnce(s, ops[..n], id);
      assert !Forgets(At(s, ops, n), ops[n]);
      StepCanonical(Run(s, ops[..n]), ops[n], id);
      hide Step;
    }
  }

  /** A pending operation takes its first canonical id, takes it again, and refuses any other. */
  lemma ResolveIs(p: Policy, ops: seq<Op>, id: string, canonical: string)
    requires id in Run(New(p), ops).operations
    ensures var s := Run(New(p), ops); var t := Step(s, ResolveOperation(id, canonical));
      if CanonicalId(s, id) in {None, Some(canonical)} then CanonicalId(t, id) == Some(canonical) else t == s
  {
    OperationsBelong(p, ops);
    hide Run, Delay;
  }

  /** Call `k` registered operation `id`, and no call since has forgotten the operations. */
  ghost predicate PendingSince(s: State, ops: seq<Op>, k: nat, id: string) {
    && k < |ops| && ops[k] == RegisterOperation(id) && AcceptedAt(s, ops, k)
    && forall j: nat | k < j < |ops| :: !Forgets(At(s, ops, j), ops[j])
  }

  lemma StepPending(s: State, op: Op, id: string)
    ensures id in Step(s, op).operations <==>
      (op == RegisterOperation(id) && Accepts(s, op)) || (id in s.operations && !Forgets(s, op))
  {
    hide Delay;
  }

  lemma PendingSnoc(s: State, ops: seq<Op>, k: nat, id: string)
    requires ops != [] && k < |ops| - 1
    ensures var n := |ops| - 1;
      PendingSince(s, ops, k, id) <==> PendingSince(s, ops[..n], k, id) && !Forgets(At(s, ops, n), ops[n])
  {
    var n := |ops| - 1;
    hide Run, Accepts, Forgets;
    forall j: nat | j < n
      ensures At(s, ops[..n], j) == At(s, ops, j) && ops[..n][j] == ops[j]
    {
      AtEarlier(s, ops, n, j);
    }
  }

  /** An operation is pending exactly if it was registered and neither a revocation nor a new registration followed. */
  lemma {:induction false} PendingIff(p: Policy, ops: seq<Op>, id: string)
    ensures id in Run(New(p), ops).operations <==> exists k: nat :: PendingSince(New(p), ops, k, id)
  {
    if ops != [] {
      var s, n: nat := New(p), |ops| - 1;
      PendingIff(p, ops[..n], id);
      StepPending(Run(s, ops[..n]), ops[n], id);
      hide Step, Accepts, Forgets;
      forall k: nat | k < n
        ensures PendingSince(s, ops, k, id) <==> PendingSince(s, ops[..n], k, id) && !Forgets(At(s, ops, n), ops[n])
      {
        PendingSnoc(s, ops, k, id);
      }
      PendingCases(s, ops, id);
    }
  }

  lemma PendingCases(s: State, ops: seq<Op>, id: string)
    requires ops != []
    requires var n := |ops| - 1;
      forall k: nat | k < n ::
        PendingSince(s, ops, k, id) <==> PendingSince(s, ops[..n], k, id) && !Forgets(At(s, ops, n), ops[n])
    ensures var n := |ops| - 1;
      (exists k: nat :: PendingSince(s, ops, k, id)) <==>
      || (ops[n] == RegisterOperation(id) && AcceptedAt(s, ops, n))
      || ((exists k: nat :: PendingSince(s, ops[..n], k, id)) && !Forgets(At(s, ops, n), ops[n]))
  {
    var n: nat := |ops| - 1;
    hide Forgets, AcceptedAt;
    if ops[n] == RegisterOperation(id) && AcceptedAt(s, ops, n) {
      assert PendingSince(s, ops, n, id);
    }
    if k: nat :| PendingSince(s, ops[..n], k, id) {
      assert k < n;
    }
  }

  // ---- Cache, staged snapshots and drafts ----

  /** Call `m` staged this snapshot. */
  predicate StagedAt(s: State, ops: seq<Op>, m: nat, x: Snapshot) {
    m < |ops| && ops[m] == StageSnapshot(x) && AcceptedAt(s, ops, m)
  }

  ghost predicate StagedIn(s: State, ops: seq<Op>, x: Snapshot) {
    exists m :: StagedAt(s, ops, m, x)
  }

  lemma StagedExtends(s: State, ops: seq<Op>, x: Snapshot)
    requires ops != [] && StagedIn(s, ops[..|ops| - 1], x)
    ensures StagedIn(s, ops, x)
  {
    var m: nat :| StagedAt(s, ops[..|ops| - 1], m, x);
    AtEarlier(s, ops, |ops| - 1, m);
    assert StagedAt(s, ops, m, x);
  }

  /** The visible cache is what it was at the start or the records of one whole snapshot staged before. */
  ghost predicate WholeCache(s: State, ops: seq<Op>) {
    var t := Run(s, ops);
    && (t.staged == s.staged || t.staged == None || StagedIn(s, ops, t.staged.value))
    && (t.cache == s.cache || (s.staged.Some? && t.cache == s.staged.value.records)
        || exists x :: StagedIn(s, ops, x) && t.cache == x.records)
  }

  lemma {:induction false} CacheIsWhole(s: State, ops: seq<Op>)
    ensures WholeCache(s, ops)
  {
    if ops != [] {
      var n := |ops| - 1;
      var u, op := Run(s, ops[..n]), ops[n];
      CacheIsWhole(s, ops[..n]);
      forall x | StagedIn(s, ops[..n], x)
        ensures StagedIn(s, ops, x)
      {
        StagedExtends(s, ops, x);
      }
      if op.StageSnapshot? && Accepts(u, op) {
        assert StagedAt(s, ops, n, op.snapshot);
      }
    }
  }

  /** From the start of a client, the cache is empty or one whole snapshot. */
  lemma CacheEmptyOrWhole(p: Policy, ops: seq<Op>)
    ensures Run(New(p), ops).cache == [] || exists x :: StagedIn(New(p), ops, x) && Run(New(p), ops).cache == x.records
  {
    CacheIsWhole(New(p), ops);
  }

  function Commits(s: State, ops: seq<Op>): nat {
    if ops == [] then 0
    else
      var before, op := ops[..|ops| - 1], ops[|ops| - 1];
      Commits(s, before) + if op.CompleteSnapshot? && Accepts(Run(s, before), op) then 1 else 0
  }

  lemma StepGeneration(s: State, op: Op)
    requires s.generation < U64_MAX
    ensures Step(s, op).generation == s.generation + if op.CompleteSnapshot? && Accepts(s, op) then 1 else 0
  {
  }

  /** The cache generation counts the committed snapshots. */
  lemma {:induction false} GenerationCountsCommits(p: Policy, ops: seq<Op>)
    requires |ops| <= U64_MAX
    ensures Run(New(p), ops).generation == Commits(New(p), ops) <= |ops|
  {
    if ops != [] {
      GenerationCountsCommits(p, ops[..|ops| - 1]);
      StepGeneration(Run(New(p), ops[..|ops| - 1]), ops[|ops| - 1]);
      hide Step, Accepts;
    }
  }

  /** Every snapshot committed by `ops` was also staged by `ops`. */
  ghost predicate CommitsOwnSnapshots(s: State, ops: seq<Op>) {
    forall k | 0 <= k < |ops| && ops[k].CompleteSnapshot? && AcceptedAt(s, ops, k) ::
      StagedIn(s, ops[..k], At(s, ops, k).staged.value)
  }

  /**
   A snapshot staged on an earlier connection survives its loss. All continuations from an authentication
   commit only snapshots of the new connection exactly if none was left staged at that moment.
   */
  lemma FreshSnapshotsIff(s: State)
    ensures (forall ops: seq<Op> :: CommitsOwnSnapshots(s, ops)) <==> s.staged == None
  {
    if s.staged == None {
      forall ops: seq<Op>
        ensures CommitsOwnSnapshots(s, ops)
      {
        forall k | 0 <= k < |ops| && ops[k].CompleteSnapshot? && AcceptedAt(s, ops, k)
          ensures StagedIn(s, ops[..k], At(s, ops, k).staged.value)
        {
          CacheIsWhole(s, ops[..k]);
        }
      }
    } else {
      var ops := [CompleteSnapshot(s.staged.value.id)];
      assert At(s, ops, 0) == s && AcceptedAt(s, ops, 0);
      assert !StagedIn(s, ops[..0], s.staged.value);
      assert !CommitsOwnSnapshots(s, ops);
    }
  }

  /** From a new client: records staged before a loss become visible on the next connection, and it is Connected. */
  lemma StaleSnapshotConnects(p: Policy, x: Snapshot, now: nat, jitter: nat)
    ensures var s := Run(New(p), [SetRegistration("a"), Authenticate, StageSnapshot(x), ConnectionLost(now, jitter)]);
      var t := Step(Step(Step(s, Authenticate), CompleteSnapshot(x.id)), CompleteCatchUp(now));
      t.connection.Connected? && t.cache == x.records
  {
    StaleStaged(p, x, now, jitter);
    hide Run, Delay;
  }

  lemma StaleStaged(p: Policy, x: Snapshot, now: nat, jitter: nat)
    ensures var s := Run(New(p), [SetRegistration("a"), Authenticate, StageSnapshot(x), ConnectionLost(now, jitter)]);
      s.connection.OfflineRetrying? && s.staged == Some(x) && !s.authenticated
  {
    RunFour(New(p), SetRegistration("a"), Authenticate, StageSnapshot(x), ConnectionLost(now, jitter));
    hide Run, Delay;
  }

  /** Drafts are exactly the drafts saved, latest text first, whatever else happens. */
  function SavedDrafts(ops: seq<Op>): map<string, string> {
    if ops == [] then map[]
    else
      var op := ops[|ops| - 1];
      if op.SaveDraft? then SavedDrafts(ops[..|ops| - 1])[op.id := op.text] else SavedDrafts(ops[..|ops| - 1])
  }

  lemma StepDrafts(s: State, op: Op)
    ensures Step(s, op).drafts == if op.SaveDraft? then s.drafts[op.id := op.text] else s.drafts
  {
  }

  lemma {:induction false} DraftsSurvive(p: Policy, ops: seq<Op>)
    ensures Run(New(p), ops).drafts == SavedDrafts(ops)
  {
    if ops != [] {
      DraftsSurvive(p, ops[..|ops| - 1]);
      StepDrafts(Run(New(p), ops[..|ops| - 1]), ops[|ops| - 1]);
      hide Step;
    }
  }

  // ---- The object: every method is the step of the same call ----

  class CompanionReconnection {
    var connection: Connection
    const policy: Policy
    var failures: nat
    var nextRetry: Option<nat>
    var registration: Option<string>
    var authenticated: bool
    var caughtUp: bool
    var dataApplied: bool
    var lastSync: Option<nat>
    var generation: nat
    var cache: seq<string>
    var staged: Option<Snapshot>
    var drafts: map<string, string>
    var operations: map<string, Pending>

    function View(): State
      reads this
    {
      State(connection, policy, failures, nextRetry, registration, authenticated, caughtUp, dataApplied,
            lastSync, generation, cache, staged, drafts, operations)
    }

    constructor (p: Policy)
      ensures View() == New(p)
    {
      connection, policy := Unpaired, Policy(p.initial, Max(p.maximum, p.initial), p.jitterMax);
      failures, nextRetry, registration := 0, None, None;
      authenticated, caughtUp, dataApplied := false, false, false;
      lastSync, generation, cache, staged, drafts, operations := None, 0, [], None, map[], map[];
    }

    method SetRegister(id: string)
      modifies this`operations, this`staged, this`caughtUp, this`dataApplied, this`registration, this`connection
      ensures View() == Step(old(View()), SetRegistration(id))
    {
      if registration != Some(id) {
        operations := map[];
        staged := None;
        caughtUp := false;
        dataApplied := false;
      }
      registration := Some(id);
      if connection == Unpaired {
        connection := OfflineRetrying;
      }
    }

    method MarkPending()
      modifies this
      ensures View() == Step(old(View()), MarkPendingApproval)
    {
      connection := PendingApproval;
      nextRetry := None;
    }

    method Begin() returns (ok: bool)
      modifies this
      ensures View() == Step(old(View()), BeginConnecting) && ok == Accepts(old(View()), BeginConnecting)
    {
      if registration == None || connection.RetriesStopped() {
        return false;
      }
      connection := Connecting;
      nextRetry := None;
      authenticated := false;
      caughtUp := false;
      dataApplied := false;
      ok := true;
    }

    method Incompatible()
      modifies this
      ensures View() == Step(old(View()), ProtocolIncompatible)
    {
      connection := Connection.Incompatible;
      nextRetry := None;
      authenticated := false;
      caughtUp := false;
    }

    method Revoked()
      modifies this
      ensures View() == Step(old(View()), Revoke)
    {
      connection := Connection.Revoked;
      nextRetry := None;
      authenticated := false;
      caughtUp := false;
      operations := map[];
      staged := None;
    }

    method Authenticated() returns (ok: bool)
      modifies this
      ensures View() == Step(old(View()), Authenticate) && ok == Accepts(old(View()), Authenticate)
    {
      if connection != Connecting && connection != OfflineRetrying {
        return false;
      }
      authenticated := true;
      connection := Syncing;
      caughtUp := false;
      dataApplied := false;
      ok := true;
    }

    method Stage(snapshot: Snapshot) returns (ok: bool)
      modifies this
      ensures View() == Step(old(View()), StageSnapshot(snapshot))
      ensures ok == Accepts(old(View()), StageSnapshot(snapshot))
    {
      if !authenticated || connection != Syncing {
        return false;
      }
      staged := Some(snapshot);
      ok := true;
    }

    method CommitSnapshot(id: string) returns (ok: bool)
      modifies this
      ensures View() == Step(old(View()), CompleteSnapshot(id)) && ok == Accepts(old(View()), CompleteSnapshot(id))
    {
      if staged == None {
        return false;
      }
      var snapshot := staged.value;
      staged := None;
      if snapshot.id != id {
        staged := Some(snapshot);
        return false;
      }
      cache := snapshot.records;
      generation := Min(generation + 1, U64_MAX);
      dataApplied := true;
      ok := true;
    }

    method CommitChanges() returns (ok: bool)
      modifies this
      ensures View() == Step(old(View()), CompleteChanges) && ok == Accepts(old(View()), CompleteChanges)
    {
      if authenticated && connection == Syncing {
        dataApplied := true;
        ok := true;
      } else {
        ok := false;
      }
    }

    method CatchUp(now: nat) returns (ok: bool)
      modifies this
      ensures View() == Step(old(View()), CompleteCatchUp(now)) && ok == Accepts(old(View()), CompleteCatchUp(now))
    {
      if authenticated && connection == Syncing && dataApplied {
        caughtUp := true;
        connection := Connected;
        failures := 0;
        nextRetry := None;
        lastSync := Some(now);
        ok := true;
      } else {
        ok := false;
      }
    }

    method Lost(now: nat, jitter: nat)
      modifies this`authenticated, this`caughtUp, this`dataApplied, this`failures, this`connection, this`nextRetry
      ensures View() == Step(old(View()), ConnectionLost(now, jitter))
    {
      hide Delay, Min;
      if connection.RetriesStopped() {
        return;
      }
      authenticated := false;
      caughtUp := false;
      dataApplied := false;
      failures := Min(failures + 1, U32_MAX);
      connection := OfflineRetrying;
      nextRetry := Some(now + Delay(policy, failures, jitter));
    }

    method RetryNow(now: nat) returns (ok: bool)
      modifies this
      ensures View() == Step(old(View()), RetryImmediately(now)) && ok == Accepts(old(View()), RetryImmediately(now))
    {
      if registration == None || connection.RetriesStopped() {
        return false;
      }
      connection := OfflineRetrying;
      nextRetry := Some(now);
      ok := true;
    }

    method Due(now: nat) returns (ok: bool)
      modifies this
      ensures View() == Step(old(View()), RetryDue(now)) && ok == Accepts(old(View()), RetryDue(now))
    {
      if connection == OfflineRetrying && nextRetry.Some? && nextRetry.value <= now {
        ok := Begin();
      } else {
        ok := false;
      }
    }

    method Draft(id: string, text: string)
      modifies this
      ensures View() == Step(old(View()), SaveDraft(id, text))
    {
      drafts := drafts[id := text];
    }

    method Register(id: string) returns (ok: bool)
      modifies this
      ensures View() == Step(old(View()), RegisterOperation(id)) && ok == Accepts(old(View()), RegisterOperation(id))
    {
      if registration == None || id in operations {
        return false;
      }
      operations := operations[id := Pending(registration.value, None)];
      ok := true;
    }

    method Resolve(id: string, canonical: string) returns (ok: bool)
      modifies this
      ensures View() == Step(old(View()), ResolveOperation(id, canonical))
      ensures ok == Accepts(old(View()), ResolveOperation(id, canonical))
    {
      if id !in operations || registration != Some(operations[id].registration) {
        return false;
      }
      if operations[id].canonical.Some? {
        return operations[id].canonical.value == canonical;
      }
      operations := operations[id := operations[id].(canonical := Some(canonical))];
      ok := true;
    }
  }
}
