/**
 Rolling candidate admission for DHT discovery (src/candidate_admission.rs): a sliding-window
 rate limit, a cooldown, and a bounded remembered set kept both as a deque and as a map.

 `CandidateAdmission` is the mutable policy object.  Its methods are proved against functions on
 `State`, and the run-level theorems are about those functions.
 */
module CandidateAdmission {
  import opened Basics

  type Peer = nat

  /** Clock readings, counted from the earliest representable instant. */
  type Instant = nat

  const REMEMBERED_MIN: nat := 128
  const REMEMBERED_MAX: nat := 256

  datatype Config = Config(cooldown: nat, maxPerCycle: nat, maxPerWindow: nat, window: nat, maxRemembered: nat)

  /** Ten minutes, 20 per cycle, 10 per minute, 192 remembered. */
  const DefaultConfig: Config := Config(600, 20, 10, 60, 192)

  datatype Verdict = Admitted | WithinCooldown | WindowFull

  datatype State = State(remembered: seq<Peer>, rememberedAt: map<Peer, Instant>, attemptTimes: seq<Instant>)

  const Empty: State := State([], map[], [])

  // ------------------------------------------------------------------
  // Specification of one call
  // ------------------------------------------------------------------

  predicate Expired(cfg: Config, at: map<Peer, Instant>, p: Peer, now: Instant) {
    p in at && (if now >= at[p] then now - at[p] else 0) >= cfg.cooldown
  }

  /** The deque drained from the front: the peers kept, and the map without the expired ones. */
  function Drained(cfg: Config, peers: seq<Peer>, at: map<Peer, Instant>, now: Instant)
    : (seq<Peer>, map<Peer, Instant>)
  {
    if peers == [] then ([], at)
    else
      var p := peers[|peers| - 1];
      var (keep, left) := Drained(cfg, peers[..|peers| - 1], at, now);
      if Expired(cfg, left, p, now) then (keep, left - {p}) else (keep + [p], left)
  }

  /** Drop the leading instants that have rolled out of the window, unless the cutoff underflows. */
  function InWindow(cfg: Config, times: seq<Instant>, now: Instant): seq<Instant> {
    if now < cfg.window || times == [] || times[0] > now - cfg.window then times
    else InWindow(cfg, times[1..], now)
  }

  function Pruned(cfg: Config, s: State, now: Instant): State {
    var (keep, left) := Drained(cfg, s.remembered, s.rememberedAt, now);
    State(keep, left, InWindow(cfg, s.attemptTimes, now))
  }

  function Bounded(cfg: Config, s: State): State
    decreases |s.remembered|
  {
    if |s.remembered| <= cfg.maxRemembered then s
    else Bounded(cfg, State(s.remembered[1..], s.rememberedAt - {s.remembered[0]}, s.attemptTimes))
  }

  function Admit(cfg: Config, s: State, p: Peer, now: Instant): (State, Verdict) {
    var t := Pruned(cfg, s, now);
    if p in t.rememberedAt then (t, WithinCooldown)
    else if |t.attemptTimes| >= cfg.maxPerWindow then (t, WindowFull)
    else (Bounded(cfg, State(t.remembered + [p], t.rememberedAt[p := now], t.attemptTimes + [now])), Admitted)
  }

  // ------------------------------------------------------------------
  // The policy object
  // ------------------------------------------------------------------

  class CandidateAdmission {
    var remembered: seq<Peer>
    var rememberedAt: map<Peer, Instant>
    var attemptTimes: seq<Instant>
    const config: Config

    ghost function View(): State
      reads this
    {
      State(remembered, rememberedAt, attemptTimes)
    }

    constructor (cfg: Config)
      ensures View() == Empty
      ensures config == cfg.(maxRemembered := config.maxRemembered)
      ensures REMEMBERED_MIN <= config.maxRemembered <= REMEMBERED_MAX
      ensures REMEMBERED_MIN <= cfg.maxRemembered <= REMEMBERED_MAX ==> config == cfg
      ensures cfg.maxRemembered < REMEMBERED_MIN ==> config.maxRemembered == REMEMBERED_MIN
      ensures cfg.maxRemembered > REMEMBERED_MAX ==> config.maxRemembered == REMEMBERED_MAX
    {
      remembered, rememberedAt, attemptTimes := [], map[], [];
      config := cfg.(maxRemembered :=
        if cfg.maxRemembered < REMEMBERED_MIN then REMEMBERED_MIN
        else if cfg.maxRemembered > REMEMBERED_MAX then REMEMBERED_MAX
        else cfg.maxRemembered);
    }

    method Prune(now: Instant)
      modifies this
      ensures View() == Pruned(config, old(View()), now)
    {
      ghost var peers, at, n := remembered, rememberedAt, 0;
      var keep: seq<Peer> := [];
      while remembered != []
        invariant 0 <= n <= |peers| && remembered == peers[n..]
        invariant (keep, rememberedAt) == Drained(config, peers[..n], at, now)
        invariant attemptTimes == old(attemptTimes)
        decreases |remembered|
      {
        var peer := remembered[0];
        remembered := remembered[1..];
        assert peers[..n + 1][..n] == peers[..n];
        if Expired(config, rememberedAt, peer, now) {
          rememberedAt := rememberedAt - {peer};
        } else {
          keep := keep + [peer];
        }
        n := n + 1;
      }
      remembered := keep;
      assert peers[..n] == peers;
      if now >= config.window {
        var cutoff := now - config.window;
        while attemptTimes != [] && attemptTimes[0] <= cutoff
          invariant InWindow(config, old(attemptTimes), now) == InWindow(config, attemptTimes, now)
          invariant (remembered, rememberedAt) == Drained(config, peers, at, now)
          decreases |attemptTimes|
        {
          attemptTimes := attemptTimes[1..];
        }
      }
    }

    method EnforceBound()
      modifies this
      ensures View() == Bounded(config, old(View()))
    {
      while |remembered| > config.maxRemembered
        invariant Bounded(config, View()) == Bounded(config, old(View()))
        decreases |remembered|
      {
        var oldest := remembered[0];
        remembered := remembered[1..];
        rememberedAt := rememberedAt - {oldest};
      }
    }

    method AdmitCandidate(peer: Peer, now: Instant) returns (verdict: Verdict)
      modifies this
      ensures (View(), verdict) == Admit(config, old(View()), peer, now)
    {
      Prune(now);
      if peer in rememberedAt {
        return WithinCooldown;
      }
      if |attemptTimes| >= config.maxPerWindow {
        return WindowFull;
      }
      rememberedAt := rememberedAt[peer := now];
      remembered := remembered + [peer];
      attemptTimes := attemptTimes + [now];
      EnforceBound();
      verdict := Admitted;
    }

    /** One discovery cycle: sweep, then try candidates in order until the per-cycle cap is reached. */
    method AdmitBatch(candidates: seq<Peer>, now: Instant) returns (out: seq<Peer>, ghost tried: nat)
      modifies this
      ensures tried <= |candidates|
      ensures View() == Play(config, old(View()), BatchOps(candidates[..tried], now)).state
      ensures out == Peers(Play(config, old(View()), BatchOps(candidates[..tried], now)).log)
      ensures |out| <= config.maxPerCycle && (|out| == config.maxPerCycle || tried == |candidates|)
    {
      ghost var s0 := View();
      Prune(now);
      out := [];
      tried := 0;
      var i := 0;
      BatchStart(config, s0, candidates, now);
      while i < |candidates|
        invariant 0 <= i == tried <= |candidates| && |out| <= config.maxPerCycle
        invariant View() == Play(config, s0, BatchOps(candidates[..i], now)).state
        invariant out == Peers(Play(config, s0, BatchOps(candidates[..i], now)).log)
      {
        if |out| >= config.maxPerCycle {
          break;
        }
        BatchNext(config, s0, candidates, i, now);
        var verdict := AdmitCandidate(candidates[i], now);
        if verdict == Admitted {
          out := out + [candidates[i]];
        }
        i := i + 1;
        tried := tried + 1;
      }
    }

    method AttemptsInWindow(now: Instant) returns (count: nat)
      modifies this
      ensures View() == Pruned(config, old(View()), now) && count == |View().attemptTimes|
    {
      Prune(now);
      count := |attemptTimes|;
    }
  }

  // ------------------------------------------------------------------
  // Runs
  // ------------------------------------------------------------------

  /** One admission attempt, or a bare prune (the start of a batch, or a window query). */
  datatype Op = Try(peer: Peer, now: Instant) | Sweep(now: Instant)

  datatype Admission = Admission(peer: Peer, at: Instant)

  /** The state reached, and every admission granted on the way, oldest first. */
  datatype Trace = Trace(state: State, log: seq<Admission>)

  function Play(cfg: Config, s: State, ops: seq<Op>): Trace {
    if ops == [] then Trace(s, []) else Next(cfg, Play(cfg, s, ops[..|ops| - 1]), ops[|ops| - 1])
  }

  function Next(cfg: Config, t: Trace, op: Op): Trace {
    match op
    case Sweep(now) => Trace(Pruned(cfg, t.state, now), t.log)
    case Try(p, now) =>
      var (u, verdict) := Admit(cfg, t.state, p, now);
      Trace(u, if verdict == Admitted then t.log + [Admission(p, now)] else t.log)
  }

  function BatchOps(candidates: seq<Peer>, now: Instant): seq<Op> {
    if candidates == [] then [Sweep(now)]
    else BatchOps(candidates[..|candidates| - 1], now) + [Try(candidates[|candidates| - 1], now)]
  }

  function Peers(log: seq<Admission>): seq<Peer> {
    seq(|log|, i requires 0 <= i < |log| => log[i].peer)
  }

  lemma BatchStart(cfg: Config, s: State, candidates: seq<Peer>, now: Instant)
    ensures Play(cfg, s, BatchOps(candidates[..0], now)) == Trace(Pruned(cfg, s, now), [])
  {
  }

  lemma {:induction false} BatchNext(cfg: Config, s: State, candidates: seq<Peer>, i: nat, now: Instant)
    requires i < |candidates|
    ensures var t := Play(cfg, s, BatchOps(candidates[..i], now));
      var (u, verdict) := Admit(cfg, t.state, candidates[i], now);
      var t' := Play(cfg, s, BatchOps(candidates[..i + 1], now));
      t'.state == u && Peers(t'.log) == Peers(t.log) + (if verdict == Admitted then [candidates[i]] else [])
  {
    var ops, next := BatchOps(candidates[..i], now), BatchOps(candidates[..i + 1], now);
    assert candidates[..i + 1][..i] == candidates[..i];
    assert next == ops + [Try(candidates[i], now)] && next[..|ops|] == ops;
  }

  /** The clock never runs backwards. */
  ghost predicate Monotone(ops: seq<Op>) {
    forall i, j | 0 <= i < j < |ops| :: ops[i].now <= ops[j].now
  }

  function Clock(ops: seq<Op>): Instant {
    if ops == [] then 0 else ops[|ops| - 1].now
  }

  ghost predicate LogInv(log: seq<Admission>, now: Instant) {
    && (forall i, j | 0 <= i < j < |log| :: log[i].at <= log[j].at)
    && (forall i | 0 <= i < |log| :: log[i].at <= now)
  }

  /** The window is the log from `k` on; everything before has rolled out of it. */
  ghost predicate WindowInv(cfg: Config, log: seq<Admission>, times: seq<Instant>, now: Instant) {
    var k := |log| - |times|;
    && 0 <= k
    && (forall i | 0 <= i < |times| :: times[i] == log[k + i].at)
    && (forall i | 0 <= i < k :: log[i].at + cfg.window <= now)
  }

  /** The peers admitted from index `m` of the log on. */
  function PeersFrom(log: seq<Admission>, m: nat): set<Peer>
    decreases |log| - m
  {
    if m >= |log| then {} else {log[m].peer} + PeersFrom(log, m + 1)
  }

  /** From index `m` on, no peer is admitted twice. */
  predicate DistinctFrom(log: seq<Admission>, m: nat)
    decreases |log| - m
  {
    m < |log| ==> log[m].peer !in PeersFrom(log, m + 1) && DistinctFrom(log, m + 1)
  }

  lemma {:induction false} PeersFromContains(log: seq<Admission>, m: nat, i: nat)
    requires m <= i < |log|
    ensures log[i].peer in PeersFrom(log, m)
    decreases i - m
  {
    if m < i {
      PeersFromContains(log, m + 1, i);
    }
  }

  lemma {:induction false} PeersFromWitness(log: seq<Admission>, m: nat, p: Peer) returns (i: nat)
    requires p in PeersFrom(log, m)
    ensures m <= i < |log| && log[i].peer == p
    decreases |log| - m
  {
    if log[m].peer == p {
      i := m;
    } else {
      i := PeersFromWitness(log, m + 1, p);
    }
  }

  lemma {:induction false} PeersFromSnoc(log: seq<Admission>, m: nat, e: Admission)
    requires m <= |log|
    ensures PeersFrom(log + [e], m) == PeersFrom(log, m) + {e.peer}
    ensures DistinctFrom(log, m) && e.peer !in PeersFrom(log, m) ==> DistinctFrom(log + [e], m)
    decreases |log| - m
  {
    if m < |log| {
      PeersFromSnoc(log, m + 1, e);
    }
  }

  /** The map holds exactly the admissions from `m` on, under their peers. */
  ghost predicate MapInv(log: seq<Admission>, m: nat, at: map<Peer, Instant>) {
    && m <= |log| && DistinctFrom(log, m) && at.Keys == PeersFrom(log, m)
    && (forall i | m <= i < |log| :: log[i].peer in at && at[log[i].peer] == log[i].at)
  }

  /** The deque is the log from `m` on. */
  ghost predicate DequeInv(log: seq<Admission>, m: nat, peers: seq<Peer>) {
    |peers| == |log| - m && (forall i | 0 <= i < |peers| :: peers[i] == log[m + i].peer)
  }

  /** Everything before `m` has expired or been followed by a full set. */
  ghost predicate Forgotten(cfg: Config, log: seq<Admission>, m: nat, now: Instant) {
    forall i | 0 <= i < m <= |log| :: log[i].at + cfg.cooldown <= now || i + cfg.maxRemembered < |log|
  }

  /** What every run keeps, up to the bound on the remembered set. */
  ghost predicate Linked(cfg: Config, t: Trace, now: Instant) {
    && LogInv(t.log, now)
    && WindowInv(cfg, t.log, t.state.attemptTimes, now)
    && |t.state.remembered| <= |t.log|
    && var m := |t.log| - |t.state.remembered|;
      DequeInv(t.log, m, t.state.remembered) && MapInv(t.log, m, t.state.rememberedAt) && Forgotten(cfg, t.log, m, now)
  }

  ghost predicate Inv(cfg: Config, t: Trace, now: Instant) {
    Linked(cfg, t, now) && |t.state.remembered| <= cfg.maxRemembered
  }

  /** An oldest-first window drops exactly the instants that have rolled out of it. */
  lemma {:induction false} InWindowIsSuffix(cfg: Config, times: seq<Instant>, now: Instant) returns (k: nat)
    requires forall i, j | 0 <= i < j < |times| :: times[i] <= times[j]
    ensures k <= |times| && InWindow(cfg, times, now) == times[k..]
    ensures forall i | 0 <= i < k :: times[i] + cfg.window <= now
    ensures forall i | k <= i < |times| :: times[i] + cfg.window > now
  {
    if now < cfg.window || times == [] || times[0] > now - cfg.window {
      k := 0;
      assert forall i | 0 < i < |times| :: times[0] <= times[i];
    } else {
      k := InWindowIsSuffix(cfg, times[1..], now);
      k := k + 1;
    }
  }

  /** Pruning leaves exactly the admissions still in the window. */
  lemma {:induction false} PruneWindow(
    cfg: Config, log: seq<Admission>, times: seq<Instant>, now: Instant, later: Instant)
    requires LogInv(log, now) && WindowInv(cfg, log, times, now) && now <= later
    ensures WindowInv(cfg, log, InWindow(cfg, times, later), later)
    ensures forall i | |log| - |InWindow(cfg, times, later)| <= i < |log| :: log[i].at + cfg.window > later
  {
    var k := |log| - |times|;
    var w := InWindowIsSuffix(cfg, times, later);
    forall i | 0 <= i < |log|
      ensures log[i].at + cfg.window <= later <==> i < k + w
    {
      if i >= k {
        assert times[i - k] == log[i].at;
      }
    }
  }

  /** Forgetting the oldest remembered admission leaves the map for the rest. */
  lemma {:induction false} ForgetOldest(log: seq<Admission>, m: nat, at: map<Peer, Instant>)
    requires MapInv(log, m, at) && m < |log|
    ensures MapInv(log, m + 1, at - {log[m].peer})
  {
    forall i | m + 1 <= i < |log|
      ensures log[i].peer != log[m].peer
    {
      PeersFromContains(log, m + 1, i);
    }
  }

  /** In an oldest-first log the expired admissions from `m` on are a prefix. */
  lemma {:induction false} FirstUnexpired(cfg: Config, log: seq<Admission>, m: nat, now: Instant) returns (k: nat)
    requires LogInv(log, now) && m <= |log|
    ensures m <= k <= |log|
    ensures forall i | m <= i < |log| :: log[i].at + cfg.cooldown <= now <==> i < k
    decreases |log| - m
  {
    if m == |log| || log[m].at + cfg.cooldown > now {
      k := m;
      assert forall i | m < i < |log| :: log[m].at <= log[i].at;
    } else {
      k := FirstUnexpired(cfg, log, m + 1, now);
    }
  }

  /** Draining expired entries keeps none of them and removes them from the map. */
  lemma {:induction false} DrainExpired(
    cfg: Config, log: seq<Admission>, m: nat, peers: seq<Peer>, at: map<Peer, Instant>, now: Instant, n: nat)
    requires DequeInv(log, m, peers) && MapInv(log, m, at) && n <= |peers|
    requires forall i | m <= i < m + n :: log[i].at + cfg.cooldown <= now
    ensures var (keep, left) := Drained(cfg, peers[..n], at, now); keep == [] && MapInv(log, m + n, left)
  {
    if n > 0 {
      assert peers[..n][..n - 1] == peers[..n - 1];
      DrainExpired(cfg, log, m, peers, at, now, n - 1);
      ForgetOldest(log, m + n - 1, Drained(cfg, peers[..n - 1], at, now).1);
      assert peers[n - 1] == log[m + n - 1].peer;
    }
  }

  /** Draining the unexpired rest keeps all of it and leaves the map alone. */
  lemma {:induction false} DrainUnexpired(
    cfg: Config, log: seq<Admission>, m: nat, peers: seq<Peer>, at: map<Peer, Instant>, now: Instant, k: nat, n: nat)
    requires DequeInv(log, m, peers) && k <= n <= |peers|
    requires var (keep, left) := Drained(cfg, peers[..k], at, now); keep == [] && MapInv(log, m + k, left)
    requires forall i | m + k <= i < |log| :: log[i].at <= now < log[i].at + cfg.cooldown
    ensures Drained(cfg, peers[..n], at, now) == (peers[k..n], Drained(cfg, peers[..k], at, now).1)
  {
    if n > k {
      assert peers[..n][..n - 1] == peers[..n - 1];
      DrainUnexpired(cfg, log, m, peers, at, now, k, n - 1);
      var e := log[m + n - 1];
      assert peers[n - 1] == e.peer && e.at <= now < e.at + cfg.cooldown;
      assert peers[k..n] == peers[k..n - 1] + [peers[n - 1]];
    }
  }

  /** Pruning keeps the invariant and leaves exactly the admissions in cooldown and in the window. */
  lemma {:induction false} PruneKeepsInv(cfg: Config, t: Trace, now: Instant, later: Instant)
    requires Inv(cfg, t, now) && now <= later
    ensures var s := Pruned(cfg, t.state, later);
      && Inv(cfg, Trace(s, t.log), later)
      && (forall i | |t.log| - |s.attemptTimes| <= i < |t.log| :: t.log[i].at + cfg.window > later)
      && (forall i | |t.log| - |s.remembered| <= i < |t.log| :: t.log[i].at + cfg.cooldown > later)
  {
    hide MapInv, DequeInv;
    var log, m := t.log, |t.log| - |t.state.remembered|;
    PruneWindow(cfg, log, t.state.attemptTimes, now, later);
    var k := FirstUnexpired(cfg, log, m, later);
    ForgottenLater(cfg, log, m, k, now, later);
    PruneDeque(cfg, log, m, t.state.remembered, t.state.rememberedAt, later, k);
    var s := Pruned(cfg, t.state, later);
    assert |log| - |s.remembered| == k && LogInv(log, later);
    assert Linked(cfg, Trace(s, log), later);
  }

  lemma ForgottenLater(cfg: Config, log: seq<Admission>, m: nat, k: nat, now: Instant, later: Instant)
    requires Forgotten(cfg, log, m, now) && now <= later && m <= k <= |log|
    requires forall i | m <= i < k :: log[i].at + cfg.cooldown <= later
    ensures Forgotten(cfg, log, k, later)
  {
  }

  lemma {:induction false} PruneDeque(
    cfg: Config, log: seq<Admission>, m: nat, peers: seq<Peer>, at: map<Peer, Instant>, later: Instant, k: nat)
    requires DequeInv(log, m, peers) && MapInv(log, m, at) && m <= k <= |log|
    requires forall i | m <= i < |log| :: log[i].at + cfg.cooldown <= later <==> i < k
    requires forall i | m <= i < |log| :: log[i].at <= later
    ensures var (keep, left) := Drained(cfg, peers, at, later); DequeInv(log, k, keep) && MapInv(log, k, left)
  {
    DrainExpired(cfg, log, m, peers, at, later, k - m);
    DrainUnexpired(cfg, log, m, peers, at, later, k - m, |peers|);
    assert peers[..|peers|] == peers && peers[k - m..|peers|] == peers[k - m..];
  }

  lemma {:induction false} PushMap(log: seq<Admission>, m: nat, at: map<Peer, Instant>, p: Peer, now: Instant)
    requires MapInv(log, m, at) && p !in at
    ensures MapInv(log + [Admission(p, now)], m, at[p := now])
    ensures forall i | m <= i < |log| :: log[i].peer != p
  {
    PeersFromSnoc(log, m, Admission(p, now));
    forall i | m <= i < |log|
      ensures log[i].peer != p
    {
      PeersFromContains(log, m, i);
    }
  }

  lemma PushWindow(cfg: Config, log: seq<Admission>, times: seq<Instant>, e: Admission)
    requires WindowInv(cfg, log, times, e.at)
    ensures WindowInv(cfg, log + [e], times + [e.at], e.at)
  {
  }

  lemma PushDeque(cfg: Config, log: seq<Admission>, m: nat, peers: seq<Peer>, e: Admission)
    requires m <= |log| && DequeInv(log, m, peers) && Forgotten(cfg, log, m, e.at) && LogInv(log, e.at)
    ensures DequeInv(log + [e], m, peers + [e.peer]) && Forgotten(cfg, log + [e], m, e.at) && LogInv(log + [e], e.at)
  {
  }

  /** An admission appends to log, deque, map and window alike. */
  lemma {:induction false} PushKeepsLinked(cfg: Config, t: Trace, p: Peer, now: Instant)
    requires Linked(cfg, t, now) && p !in t.state.rememberedAt
    ensures var s := t.state;
      var u := State(s.remembered + [p], s.rememberedAt[p := now], s.attemptTimes + [now]);
      Linked(cfg, Trace(u, t.log + [Admission(p, now)]), now)
  {
    var m, e := |t.log| - |t.state.remembered|, Admission(p, now);
    PushMap(t.log, m, t.state.rememberedAt, p, now);
    PushWindow(cfg, t.log, t.state.attemptTimes, e);
    PushDeque(cfg, t.log, m, t.state.remembered, e);
  }

  /** Evicting at most one entry restores the bound. */
  lemma {:induction false} EvictKeepsLinked(cfg: Config, t: Trace, now: Instant)
    requires Linked(cfg, t, now) && |t.state.remembered| <= cfg.maxRemembered + 1
    ensures Inv(cfg, Trace(Bounded(cfg, t.state), t.log), now)
  {
    var s := t.state;
    if |s.remembered| > cfg.maxRemembered {
      var m := |t.log| - |s.remembered|;
      ForgetOldest(t.log, m, s.rememberedAt);
      var u := State(s.remembered[1..], s.rememberedAt - {s.remembered[0]}, s.attemptTimes);
      assert Bounded(cfg, s) == u;
      assert DequeInv(t.log, m + 1, u.remembered);
      assert Forgotten(cfg, t.log, m + 1, now) by {
        assert forall i | 0 <= i < m :: t.log[i].at + cfg.cooldown <= now || i + cfg.maxRemembered < |t.log|;
      }
    }
  }

  /** No run admits more than `maxPerWindow` in any window. */
  ghost predicate RateBounded(cfg: Config, log: seq<Admission>) {
    forall i, j | 0 <= i < j < |log| && j == i + cfg.maxPerWindow :: log[i].at + cfg.window <= log[j].at
  }

  /** A peer is admitted again only after its cooldown, or once a full set of others has followed it. */
  ghost predicate CooldownOrEvicted(cfg: Config, log: seq<Admission>) {
    forall i, j | 0 <= i < j < |log| && log[i].peer == log[j].peer ::
      log[i].at + cfg.cooldown <= log[j].at || i + cfg.maxRemembered < j
  }

  /** What the theorems below rest on. */
  ghost predicate Promised(cfg: Config, log: seq<Admission>) {
    RateBounded(cfg, log) && CooldownOrEvicted(cfg, log) && (cfg.maxPerWindow == 0 ==> log == [])
  }

  /** Admitting after a prune extends the log within the rate, and past cooldown or eviction. */
  lemma AdmissionKeepsPromises(cfg: Config, t: Trace, p: Peer, now: Instant)
    requires Inv(cfg, t, now) && Promised(cfg, t.log)
    requires p !in t.state.rememberedAt && |t.state.attemptTimes| < cfg.maxPerWindow
    ensures Promised(cfg, t.log + [Admission(p, now)])
  {
  }

  /** One operation, no earlier than the last. */
  lemma {:induction false} NextKeepsInv(cfg: Config, t: Trace, now: Instant, op: Op)
    requires Inv(cfg, t, now) && now <= op.now && Promised(cfg, t.log)
    ensures Inv(cfg, Next(cfg, t, op), op.now) && Promised(cfg, Next(cfg, t, op).log)
  {
    PruneKeepsInv(cfg, t, now, op.now);
    var v := Trace(Pruned(cfg, t.state, op.now), t.log);
    if op.Try? && Admit(cfg, t.state, op.peer, op.now).1 == Admitted {
      AdmissionKeepsPromises(cfg, v, op.peer, op.now);
      PushKeepsLinked(cfg, v, op.peer, op.now);
      var s := v.state;
      var u := State(s.remembered + [op.peer], s.rememberedAt[op.peer := op.now], s.attemptTimes + [op.now]);
      EvictKeepsLinked(cfg, Trace(u, t.log + [Admission(op.peer, op.now)]), op.now);
    }
  }

  lemma {:induction false} RunKeepsInv(cfg: Config, ops: seq<Op>)
    requires Monotone(ops)
    ensures var t := Play(cfg, Empty, ops); Inv(cfg, t, Clock(ops)) && Promised(cfg, t.log)
  {
    if ops != [] {
      var rest := ops[..|ops| - 1];
      RunKeepsInv(cfg, rest);
      NextKeepsInv(cfg, Play(cfg, Empty, rest), Clock(rest), ops[|ops| - 1]);
    }
  }

  // ------------------------------------------------------------------
  // What the policy promises
  // ------------------------------------------------------------------

  /** The admissions with `low < at <= high`. */
  ghost function AdmittedWithin(log: seq<Admission>, low: int, high: int): set<nat> {
    set i | 0 <= i < |log| && low < log[i].at <= high
  }

  lemma {:induction false} IntervalSize(s: set<nat>, lo: nat, n: nat)
    requires forall i | i in s :: lo <= i < lo + n
    ensures |s| <= n
    ensures (forall i | lo <= i < lo + n :: i in s) ==> |s| == n
    decreases n
  {
    if n > 0 {
      var last := lo + n - 1;
      IntervalSize(s - {last}, lo, n - 1);
      assert last in s ==> |s| == |s - {last}| + 1;
      assert last !in s ==> s - {last} == s;
    } else {
      assert s == {};
    }
  }

  /** Short-term abuse bound: every window `(t - window, t]` of every run holds at most `maxPerWindow` admissions. */
  lemma {:induction false} WindowBound(cfg: Config, ops: seq<Op>, t: int)
    requires Monotone(ops)
    ensures |AdmittedWithin(Play(cfg, Empty, ops).log, t - cfg.window, t)| <= cfg.maxPerWindow
  {
    RunKeepsInv(cfg, ops);
    var log := Play(cfg, Empty, ops).log;
    var s := AdmittedWithin(log, t - cfg.window, t);
    if s != {} && cfg.maxPerWindow > 0 {
      var lo := LeastOf(s);
      forall i | i in s
        ensures lo <= i < lo + cfg.maxPerWindow
      {
        if lo + cfg.maxPerWindow < |log| {
          assert log[lo].at + cfg.window <= log[lo + cfg.maxPerWindow].at;
        }
      }
      IntervalSize(s, lo, cfg.maxPerWindow);
    }
  }

  lemma {:induction false} LeastOf(s: set<nat>) returns (lo: nat)
    requires s != {}
    ensures lo in s && forall i | i in s :: lo <= i
    decreases |s|
  {
    var x :| x in s;
    if s == {x} {
      lo := x;
    } else {
      lo := LeastOf(s - {x});
      assert forall i | i in s :: i == x || i in s - {x};
      if x < lo { lo := x; }
    }
  }

  function CeilDiv(a: nat, b: nat): nat
    requires b > 0
  {
    (a + b - 1) / b
  }

  /** `c` windows' worth of admissions (`span` many) take at least `c` windows (`time`). */
  lemma {:induction false} WindowsCover(cfg: Config, log: seq<Admission>, i: nat, c: nat, span: nat, time: nat)
    requires RateBounded(cfg, log) && cfg.maxPerWindow > 0
    requires span == c * cfg.maxPerWindow && time == c * cfg.window && i + span < |log|
    ensures log[i].at + time <= log[i + span].at
  {
    if c > 0 {
      assert span - cfg.maxPerWindow == (c - 1) * cfg.maxPerWindow && time - cfg.window == (c - 1) * cfg.window;
      WindowsCover(cfg, log, i, c - 1, span - cfg.maxPerWindow, time - cfg.window);
      assert log[i + span - cfg.maxPerWindow].at + cfg.window <= log[i + span].at;
    }
  }

  /** Two admissions of one peer in this log are always at least a cooldown apart. */
  ghost predicate CooldownHolds(cfg: Config, log: seq<Admission>) {
    forall i, j | 0 <= i < j < |log| && log[i].peer == log[j].peer :: log[i].at + cfg.cooldown <= log[j].at
  }

  /** The rate limit cannot fill the remembered set within one cooldown. */
  predicate Fits(cfg: Config) {
    || cfg.cooldown == 0 || cfg.maxPerWindow == 0
    || (cfg.window > 0 && cfg.maxPerWindow * CeilDiv(cfg.cooldown, cfg.window) <= cfg.maxRemembered + 1)
  }

  /** If the numbers fit, the bounded set never cuts a cooldown short. */
  lemma {:induction false} FitsImpliesCooldown(cfg: Config, ops: seq<Op>)
    requires Monotone(ops) && Fits(cfg)
    ensures CooldownHolds(cfg, Play(cfg, Empty, ops).log)
  {
    RunKeepsInv(cfg, ops);
    var log := Play(cfg, Empty, ops).log;
    if cfg.cooldown > 0 && cfg.maxPerWindow > 0 {
      var c := CeilDiv(cfg.cooldown, cfg.window);
      CeilCovers(cfg.cooldown, cfg.window);
      EvictionOutlastsCooldown(cfg, log, Clock(ops), c, c * cfg.maxPerWindow, c * cfg.window);
    }
  }

  lemma {:induction false} EvictionOutlastsCooldown(
    cfg: Config, log: seq<Admission>, now: Instant, c: nat, span: nat, time: nat)
    requires LogInv(log, now) && RateBounded(cfg, log) && CooldownOrEvicted(cfg, log) && cfg.maxPerWindow > 0
    requires span == c * cfg.maxPerWindow && time == c * cfg.window
    requires cfg.cooldown <= time && span <= cfg.maxRemembered + 1
    ensures CooldownHolds(cfg, log)
  {
    forall i, j | 0 <= i < j < |log| && log[i].peer == log[j].peer
      ensures log[i].at + cfg.cooldown <= log[j].at
    {
      if i + cfg.maxRemembered < j {
        WindowsCover(cfg, log, i, c, span, time);
        assert i + span < j ==> log[i + span].at <= log[j].at;
      }
    }
  }

  lemma CeilCovers(a: nat, b: nat)
    requires b > 0
    ensures a <= CeilDiv(a, b) * b < a + b
  {
  }

  /** An early readmission needs `maxRemembered` other peers, all different, admitted in between. */
  lemma {:induction false} EarlyReadmissionNeedsFullSet(cfg: Config, ops: seq<Op>, i: nat, j: nat)
    requires Monotone(ops)
    requires var log := Play(cfg, Empty, ops).log;
      i < j < |log| && log[i].peer == log[j].peer && log[j].at < log[i].at + cfg.cooldown
    ensures var log := Play(cfg, Empty, ops).log;
      && i + cfg.maxRemembered < j
      && forall a, b | i <= a < b <= i + cfg.maxRemembered :: log[a].peer != log[b].peer
  {
    RunKeepsInv(cfg, ops);
  }

  /**
   The reference decision: look only at the admission log.  A peer is in cooldown if it is among the
   last `maxRemembered` admissions and admitted less than a cooldown ago.
   */
  ghost function Decision(cfg: Config, log: seq<Admission>, p: Peer, now: Instant): Verdict {
    if exists i :: 0 <= i < |log| <= i + cfg.maxRemembered && log[i].peer == p && log[i].at + cfg.cooldown > now
    then WithinCooldown
    else if |AdmittedWithin(log, now - cfg.window, now)| >= cfg.maxPerWindow then WindowFull
    else Admitted
  }

  /** Deque, map and window together decide exactly as the full log would. */
  lemma {:induction false} DecidesAsLog(cfg: Config, ops: seq<Op>, p: Peer, now: Instant)
    requires Monotone(ops) && Clock(ops) <= now
    ensures var t := Play(cfg, Empty, ops); Admit(cfg, t.state, p, now).1 == Decision(cfg, t.log, p, now)
  {
    RunKeepsInv(cfg, ops);
    var t := Play(cfg, Empty, ops);
    PruneKeepsInv(cfg, t, Clock(ops), now);
    PrunedAsLog(cfg, Trace(Pruned(cfg, t.state, now), t.log), p, now);
  }

  lemma {:induction false} PrunedAsLog(cfg: Config, t: Trace, p: Peer, now: Instant)
    requires Inv(cfg, t, now)
    requires forall i | |t.log| - |t.state.attemptTimes| <= i < |t.log| :: t.log[i].at + cfg.window > now
    requires forall i | |t.log| - |t.state.remembered| <= i < |t.log| :: t.log[i].at + cfg.cooldown > now
    ensures |AdmittedWithin(t.log, now - cfg.window, now)| == |t.state.attemptTimes|
    ensures p in t.state.rememberedAt <==>
      exists i :: 0 <= i < |t.log| <= i + cfg.maxRemembered && t.log[i].peer == p && t.log[i].at + cfg.cooldown > now
  {
    var log, m := t.log, |t.log| - |t.state.remembered|;
    IntervalSize(AdmittedWithin(log, now - cfg.window, now), |log| - |t.state.attemptTimes|, |t.state.attemptTimes|);
    if p in t.state.rememberedAt {
      var i := PeersFromWitness(log, m, p);
      assert 0 <= i < |log| <= i + cfg.maxRemembered && log[i].peer == p && log[i].at + cfg.cooldown > now;
    }
    if i :| 0 <= i < |log| <= i + cfg.maxRemembered && log[i].peer == p && log[i].at + cfg.cooldown > now {
      assert m <= i;
      PeersFromContains(log, m, i);
    }
  }

  // ------------------------------------------------------------------
  // The fit condition is exact
  // ------------------------------------------------------------------

  /** The earliest instant at which the `k`-th admission can be granted. */
  function SlotTime(cfg: Config, k: nat): Instant
    requires cfg.maxPerWindow > 0
  {
    (k / cfg.maxPerWindow) * cfg.window
  }

  /** `n` different peers, as fast as the rate limit lets them in. */
  function Burst(cfg: Config, n: nat): seq<Op>
    requires cfg.maxPerWindow > 0
  {
    seq(n, k requires 0 <= k < n => Try(k, SlotTime(cfg, k)))
  }

  function BurstLog(cfg: Config, n: nat): seq<Admission>
    requires cfg.maxPerWindow > 0
  {
    seq(n, k requires 0 <= k < n => Admission(k, SlotTime(cfg, k)))
  }

  lemma {:induction false} SlotTimeMonotone(cfg: Config, a: nat, b: nat)
    requires cfg.maxPerWindow > 0 && a <= b
    ensures SlotTime(cfg, a) <= SlotTime(cfg, b)
  {
    DivMonotone(a, b, cfg.maxPerWindow);
    MulMonotone(a / cfg.maxPerWindow, b / cfg.maxPerWindow, cfg.window);
  }

  lemma {:induction false} SlotHasRoom(cfg: Config, k: nat, n: nat)
    requires cfg.maxPerWindow > 0 && k <= n
    requires SlotTime(cfg, k) + cfg.window > SlotTime(cfg, n)
    ensures n - k < cfg.maxPerWindow
  {
    var m, w := cfg.maxPerWindow, cfg.window;
    var x, y := k / m, n / m;
    if x + 1 <= y {
      MulMonotone(x + 1, y, w);
    }
    assert y <= x;
    MulMonotone(y, x, m);
  }

  lemma {:induction false} PeersFromBounds(log: seq<Admission>, m: nat, lo: nat, hi: nat)
    requires forall i | m <= i < |log| :: lo <= log[i].peer < hi
    ensures forall p | p in PeersFrom(log, m) :: lo <= p < hi
    decreases |log| - m
  {
    if m < |log| {
      PeersFromBounds(log, m + 1, lo, hi);
    }
  }

  /** After a burst of `n`, the pruned window has room in slot `n`, and peer 0 is forgotten once the set is full. */
  lemma {:induction false} BurstLeavesRoom(cfg: Config, t: Trace, n: nat)
    requires cfg.maxPerWindow > 0 && t.log == BurstLog(cfg, n) && Inv(cfg, t, SlotTime(cfg, n))
    requires forall i | n - |t.state.attemptTimes| <= i < n :: t.log[i].at + cfg.window > SlotTime(cfg, n)
    ensures |t.state.attemptTimes| < cfg.maxPerWindow && n !in t.state.rememberedAt
    ensures n > cfg.maxRemembered ==> 0 !in t.state.rememberedAt
  {
    var k, m := n - |t.state.attemptTimes|, n - |t.state.remembered|;
    PeersFromBounds(t.log, m, m, n);
    if k < n {
      assert t.log[k].at == SlotTime(cfg, k);
      SlotHasRoom(cfg, k, n);
    }
  }

  /** After `n` burst admissions, a peer that is not remembered gets the next slot. */
  lemma {:induction false} NextSlotAdmits(cfg: Config, ops: seq<Op>, n: nat, p: Peer)
    requires cfg.maxPerWindow > 0 && Monotone(ops) && Clock(ops) <= SlotTime(cfg, n)
    requires Play(cfg, Empty, ops).log == BurstLog(cfg, n)
    requires p == n || (p == 0 && n > cfg.maxRemembered)
    ensures Play(cfg, Empty, ops + [Try(p, SlotTime(cfg, n))]).log
      == BurstLog(cfg, n) + [Admission(p, SlotTime(cfg, n))]
  {
    RunKeepsInv(cfg, ops);
    var t, now := Play(cfg, Empty, ops), SlotTime(cfg, n);
    PruneKeepsInv(cfg, t, Clock(ops), now);
    BurstLeavesRoom(cfg, Trace(Pruned(cfg, t.state, now), t.log), n);
    AdmitExtends(cfg, ops, p, now);
  }

  lemma AdmitExtends(cfg: Config, ops: seq<Op>, p: Peer, now: Instant)
    requires var s := Pruned(cfg, Play(cfg, Empty, ops).state, now);
      p !in s.rememberedAt && |s.attemptTimes| < cfg.maxPerWindow
    ensures Play(cfg, Empty, ops + [Try(p, now)]).log == Play(cfg, Empty, ops).log + [Admission(p, now)]
  {
  }

  lemma BurstSnoc(cfg: Config, n: nat)
    requires cfg.maxPerWindow > 0
    ensures Burst(cfg, n + 1) == Burst(cfg, n) + [Try(n, SlotTime(cfg, n))]
    ensures BurstLog(cfg, n + 1) == BurstLog(cfg, n) + [Admission(n, SlotTime(cfg, n))]
  {
  }

  lemma {:induction false} BurstMonotone(cfg: Config, n: nat)
    requires cfg.maxPerWindow > 0
    ensures Monotone(Burst(cfg, n)) && Clock(Burst(cfg, n)) <= SlotTime(cfg, n)
  {
    forall i, j | 0 <= i < j < n
      ensures Burst(cfg, n)[i].now <= Burst(cfg, n)[j].now
    {
      SlotTimeMonotone(cfg, i, j);
    }
    if n > 0 {
      SlotTimeMonotone(cfg, n - 1, n);
    }
  }

  lemma {:induction false} BurstAdmitsAll(cfg: Config, n: nat)
    requires cfg.maxPerWindow > 0
    ensures Play(cfg, Empty, Burst(cfg, n)).log == BurstLog(cfg, n)
  {
    if n > 0 {
      BurstAdmitsAll(cfg, n - 1);
      BurstMonotone(cfg, n - 1);
      NextSlotAdmits(cfg, Burst(cfg, n - 1), n - 1, n - 1);
      BurstSnoc(cfg, n - 1);
    }
  }

  /** If the numbers do not fit, a burst evicts its first peer and readmits it inside the cooldown. */
  lemma {:induction false} BurstBreaksCooldown(cfg: Config) returns (ops: seq<Op>)
    requires !Fits(cfg)
    ensures Monotone(ops) && !CooldownHolds(cfg, Play(cfg, Empty, ops).log)
  {
    var n := cfg.maxRemembered + 1;
    var now := SlotTime(cfg, n);
    BurstAdmitsAll(cfg, n);
    BurstMonotone(cfg, n);
    NextSlotAdmits(cfg, Burst(cfg, n), n, 0);
    ops := Burst(cfg, n) + [Try(0, now)];
    LastSlotInCooldown(cfg);
    var log := Play(cfg, Empty, ops).log;
    assert log[0].peer == log[n].peer && log[n].at < log[0].at + cfg.cooldown;
  }

  lemma {:induction false} LastSlotInCooldown(cfg: Config)
    requires !Fits(cfg)
    ensures SlotTime(cfg, cfg.maxRemembered + 1) < cfg.cooldown
  {
    var m, w, n := cfg.maxPerWindow, cfg.window, cfg.maxRemembered + 1;
    if w > 0 {
      var c := CeilDiv(cfg.cooldown, w);
      CeilCovers(cfg.cooldown, w);
      if n / m >= c {
        MulMonotone(c, n / m, m);
      }
      assert n / m + 1 <= c;
      MulMonotone(n / m + 1, c, w);
    }
  }

  /** The cooldown holds in every run exactly when the rate limit cannot fill the remembered set within one cooldown. */
  lemma {:induction false} CooldownExactIff(cfg: Config)
    ensures Fits(cfg) <==> forall ops | Monotone(ops) :: CooldownHolds(cfg, Play(cfg, Empty, ops).log)
  {
    if Fits(cfg) {
      forall ops | Monotone(ops) ensures CooldownHolds(cfg, Play(cfg, Empty, ops).log) {
        FitsImpliesCooldown(cfg, ops);
      }
    } else {
      var ops := BurstBreaksCooldown(cfg);
    }
  }

  /** The default tuning fits, with room to spare. */
  lemma {:induction false} DefaultsKeepCooldown(ops: seq<Op>)
    requires Monotone(ops)
    ensures CooldownHolds(DefaultConfig, Play(DefaultConfig, Empty, ops).log)
  {
    FitsImpliesCooldown(DefaultConfig, ops);
  }
}
